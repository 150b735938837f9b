# Mail Scribe verification workflow, modelled in Dafny

Mail Scribe is a demo front end for bulk e-mail verification. Under its screens there is
a small workflow, and this project models that workflow and proves its properties:

- **Session and credit ledger.** A user logs in with the demo credentials or signs up. The
  session is restored from browser storage. Every verified address costs one credit,
  except for the two administrator identities.
- **Verification context.** It gates a request. A typed list passes the login gate, then
  the credit gate. An upload passes the login, file-selected and ".csv" name gates, then
  the file read and the extraction of addresses from the CSV text, and only then the
  credit gate. A request that passes is sent to the mock classifier; its batch is put at
  the front of the history and the credits are debited.
- **Mock classifier.** It is a first-match chain of substring rules with a random
  fallback.
- **Dashboard widgets.** These cover:
  - the text-area splitter of the manual form;
  - the five-line preview of the upload panel;
  - the unescaped CSV export and the sanitised file name;
  - the expand toggle of the history;
  - the summary counts of the results panel;
  - the three-tries counter of the landing-page trial;
  - the password gate of the sign-up form.

Modules, one per source file plus shared pieces:

- `Wrappers` (wrappers.dfy): `Option`
- `Strings` (strings.dfy): JavaScript's `includes`, `indexOf`, `replace` (string pattern), `endsWith`, `trim`, `split` and `join`
- `Types` (types.dfy): src/types/index.ts, and the status counts
- `MockData` (mock_data.dfy): src/data/mockData.ts
- `CsvScan` (csv_scan.dfy): the CSV address extractor, whose loops appear in both VerificationContext.tsx and FileUpload.tsx
- `CsvExport` (csv_export.dfy): the CSV export written twice, in VerificationHistory.tsx and VerificationResults.tsx
- `Auth` (auth.dfy): src/contexts/AuthContext.tsx (class `Session`)
- `Verification` (verification.dfy): src/contexts/VerificationContext.tsx (class `Workflow`)
- `ManualVerification` (manual_verification.dfy): src/components/dashboard/ManualVerification.tsx (class `Form`)
- `FileUpload` (file_upload.dfy): src/components/dashboard/FileUpload.tsx (class `Panel`)
- `VerificationHistory` (verification_history.dfy): src/components/dashboard/VerificationHistory.tsx (class `Panel`)
- `VerificationResults` (verification_results.dfy): src/components/dashboard/VerificationResults.tsx
- `EmailVerificationTest` (email_verification_test.dfy): src/components/EmailVerificationTest.tsx (class `Trial`)
- `SignUp` (sign_up.dfy): src/pages/Auth/SignUp.tsx (class `Form`)

React state becomes fields of a class. Each handler becomes a method that modifies those
fields. The shared contexts are objects that the panels hold as `const` references.

Some things in the source cannot be computed, so the caller supplies them as parameters:

- **Classifier settlement.** `Reply` is either `Resolved(draw)` or `Rejected`.
- **Per-address randomness and timestamp.** `draw(i)` gives the fallback branch, the
  score and the timestamp for the `i`-th address.
- **Batch stamp.** `Stamp` carries the batch id and the dates.
- **File read result.** `File.content` is `None` when the read fails.
- **Signup time.** `now` is the time used in the new user's id.

Browser storage is the field `Session.stored`, with a `Corrupt` case for text that does
not parse.

Two facts about the code are easy to miss:

- `login` accepts only `demo@example.com` / `password`. The credit exemption is
  granted by e-mail `admin@mailscribe.com` or id `admin-user-id`
  (src/contexts/VerificationContext.tsx:41). No credential pair logs in as either, but
  `signup` with the e-mail `admin@mailscribe.com` creates an exempt identity, because sign-up
  puts no restriction on the address (`Verification.SignupAsAdminIsExempt`).
- The invalid-keyword rule never fires, because "invalid" contains "valid" and the valid
  rule comes first (`MockData.InvalidKeywordClassifiedValid`).

## Model

| member | source | states |
|---|---|---|
| `Types.StatusText` | src/types/index.ts:2-7 | the string literal of each of the five statuses, as written in the status type and in the export |
| `Types.CountStatus` | src/contexts/VerificationContext.tsx:68-72 | the count of results with a status never exceeds the number of results |
| `Types.CountsPartition` | src/contexts/VerificationContext.tsx:67-72 | the five status counts of any result list add up to its length |
| `Types.CountZeroIffAbsent` | src/contexts/VerificationContext.tsx:72 | a status count is zero exactly when no result has that status |
| `Types.CountConcat` | src/contexts/VerificationContext.tsx:68-72 | counting distributes over concatenation of result lists |
| `MockData.SeedBatches` | src/data/mockData.ts:54-79 | both seed batches keep total = sum of counts (150, 75) but hold only 5 and 3 results, so total = number of results fails for them |
| `MockData.Fallback` | src/data/mockData.ts:112-131 | the random fallback always yields valid, invalid, disposable or risky |
| `MockData.Classify` | src/data/mockData.ts:84-140 | each result keeps the address and the timestamp, is never 'unknown' and always has a score |
| `MockData.MockVerifyEmails` | src/data/mockData.ts:81-146 | one result per input address in input order, with `results[i].email == emails[i]`, none 'unknown' |
| `MockData.NoUnknownResults` | src/data/mockData.ts:86-131 | classifier output has zero 'unknown' results |
| `MockData.FirstRule` | src/data/mockData.ts:91-111 | the index returned is that of a rule that fires with no earlier rule firing; none means no rule fires |
| `MockData.ClassifyFollowsRuleTable` | src/data/mockData.ts:91-131 | the if/else chain equals first-match evaluation of the five-rule table (valid/real, disposable/temp, risky/catch, invalid/no '@', typo/gmal), else the fallback |
| `MockData.InvalidKeywordClassifiedValid` | src/data/mockData.ts:91-106 | every address containing "invalid" is classified valid/personal, because it contains "valid" |
| `MockData.SyntaxErrorIffNoAt` | src/data/mockData.ts:91-106 | the syntax-error kind is given exactly when the address lacks '@' and no earlier keyword occurs |
| `MockData.SuggestionOnlyForTypos` | src/data/mockData.ts:107-111 | a suggestion exists exactly in the typo branch, which is reached exactly for an address with '@', no earlier keyword and "typo" or "gmal"; the suggestion is the first "gmal" replaced by "gmail" |
| `MockData.FallbackOnlyWithoutKeywords` | src/data/mockData.ts:112-131 | the random draw matters only for an address with '@' and no keyword; there the result is the fallback with one of four statuses, valid exactly for the two valid picks |
| `MockData.TypoBranch` | src/data/mockData.ts:107-111 | with '@', "gmal" and no earlier keyword the result is invalid with the gmal→gmail suggestion |
| `MockData.TypoExample` | src/data/mockData.ts:107-111 | "user@gmal.com" is classified invalid with suggestion "user@gmail.com" |
| `Strings.ReplaceFirst` | src/contexts/VerificationContext.tsx:133 | `replace` with a string pattern: the text before the first occurrence, the replacement, then the text after it; the input itself when the pattern is absent (proved in `Strings.ReplaceFirstSpec`) |
| `Strings.EndsWith` | src/contexts/VerificationContext.tsx:103 | `endsWith`: the suffix is exactly the last characters of the string |
| `Strings.Contains` | src/contexts/VerificationContext.tsx:166 | `includes`: `sub` occurs at some position of `s` (both directions proved in `Strings.ContainsIffOccurs`) |
| `Strings.IndexOf` | src/data/mockData.ts:110 | `indexOf`: none exactly when the pattern does not occur; otherwise an occurrence with no earlier one |
| `Strings.ReplaceFirstSpec` | src/contexts/VerificationContext.tsx:133 | `replace` with a string pattern changes only the first occurrence, and nothing when there is none |
| `Strings.Trim` | src/contexts/VerificationContext.tsx:164 | `trim`: strip trailing, then leading, ECMAScript whitespace and line terminators (characterised by `Strings.TrimSpec`) |
| `Strings.TrimIgnoresTrailingWhitespace` | src/contexts/VerificationContext.tsx:164 | appending a whitespace character does not change the trim |
| `Strings.TrimSpec` | src/contexts/VerificationContext.tsx:164 | `trim` keeps exactly the middle between two whitespace runs, starting and ending with non-whitespace |
| `Strings.TrimIdempotent` | src/components/dashboard/ManualVerification.tsx:24 | trimming twice is trimming once |
| `Strings.TrimEmptyIffBlank` | src/components/dashboard/ManualVerification.tsx:19 | `s.trim()` is empty exactly when `s` is all whitespace |
| `Strings.Split` | src/contexts/VerificationContext.tsx:158 | `split` on a character set yields at least one piece |
| `Strings.SplitPieces` | src/contexts/VerificationContext.tsx:158 | every character of every piece is a character of the input and not a separator |
| `Strings.SplitSnoc` | src/contexts/VerificationContext.tsx:158 | appending a non-separator character extends the last piece only |
| `Strings.SplitNoSeparator` | src/contexts/VerificationContext.tsx:162 | a string without separators splits into itself alone |
| `Strings.SplitConcat` | src/contexts/VerificationContext.tsx:158 | splitting `a + sep + b` splits `a` and `b` independently |
| `Strings.Join` | src/components/dashboard/VerificationHistory.tsx:49 | `join`: the parts with one separator between neighbours; the inverse of `Split` by `Strings.SplitJoin` and `Strings.JoinSplit` |
| `Strings.SplitJoin` | src/components/dashboard/VerificationHistory.tsx:49 | splitting a join gives the parts back when no part holds the separator |
| `Strings.JoinSplit` | src/components/dashboard/VerificationHistory.tsx:49 | joining the pieces of a split gives the string back |
| `CsvScan.StripCarriageReturns` | src/contexts/VerificationContext.tsx:158 | the `\r?` of `split(/\r?\n/)`: a '\r' at the end of every piece but the last is dropped |
| `CsvScan.LooksLikeEmail` | src/contexts/VerificationContext.tsx:166 | a value is kept exactly when its trim contains both '@' and '.' |
| `CsvScan.CsvEmails` | src/contexts/VerificationContext.tsx:156-173 | the reference value of `parseCSVEmails`: the kept tokens of all lines, line by line and value by value |
| `CsvScan.CsvPreview` | src/components/dashboard/FileUpload.tsx:30-43 | the same extraction on the first five lines only (related to `CsvEmails` by `CsvScan.PreviewIsPrefix`) |
| `CsvScan.Lines` | src/contexts/VerificationContext.tsx:158 | `split(/\r?\n/)` always yields at least one line |
| `CsvScan.ScanLines` | src/contexts/VerificationContext.tsx:159-172 | the nested loops push exactly `EmailsOfLines(lines)`: every value's trim that contains '@' and '.', line by line and value by value |
| `CsvScan.FlattenConcat` | src/contexts/VerificationContext.tsx:161-170 | pushing the tokens of two line lists one after the other is concatenation |
| `CsvScan.EmailsOfLinesConcat` | src/contexts/VerificationContext.tsx:161-170 | extraction of `a + b` lines is extraction of `a` followed by extraction of `b` |
| `CsvScan.LineEmailsIgnoresCarriageReturn` | src/contexts/VerificationContext.tsx:158-164 | a '\r' at the end of a line changes nothing, as the trim removes it |
| `CsvScan.StripCarriageReturnsKeepsEmails` | src/contexts/VerificationContext.tsx:158 | dropping a trailing '\r' from each line leaves the extracted addresses unchanged |
| `CsvScan.CsvEmailsByNewline` | src/contexts/VerificationContext.tsx:158 | extraction splitting at `\r?\n` equals extraction splitting at '\n' alone |
| `CsvScan.CsvEmailsConcat` | src/contexts/VerificationContext.tsx:156-173 | `parse(a + "\n" + b) == parse(a) + parse(b)` (line-then-column order) |
| `CsvScan.PreviewIsPrefix` | src/components/dashboard/FileUpload.tsx:30-43 | the five-line preview is a prefix of the full parse, and equals it when the text has at most five lines |
| `CsvScan.LineEmailsMembers` | src/contexts/VerificationContext.tsx:162-168 | a token is taken from a line exactly when it is the trim of one of its values and contains '@' and '.' |
| `CsvScan.EmailsOfLinesMembers` | src/contexts/VerificationContext.tsx:161-170 | a token is extracted exactly when it is the trim of some value of some line and contains '@' and '.' |
| `CsvScan.ExtractedTokensAreClean` | src/contexts/VerificationContext.tsx:164-167 | every extracted token is trimmed and contains '@' and '.' |
| `CsvScan.LineOfAddresses` | src/contexts/VerificationContext.tsx:162-168 | a line of clean addresses joined by ',' yields exactly those addresses |
| `CsvExport.Fields` | src/components/dashboard/VerificationHistory.tsx:39-46 | six fields per result: email, status text, type, suggestion, score text, timestamp, with an absent optional written as empty |
| `CsvExport.Table` | src/components/dashboard/VerificationHistory.tsx:35-47 | the header row first, then one row per result in order |
| `CsvExport.CsvText` | src/components/dashboard/VerificationHistory.tsx:35-49 | the export text: each row of the table joined at ',', the rows joined at '\n' |
| `CsvExport.BuildCsv` | src/components/dashboard/VerificationHistory.tsx:35-49 | the push loop and the two joins produce exactly `CsvText(results)` |
| `CsvExport.FixedCellsPlain` | src/components/dashboard/VerificationHistory.tsx:35-41 | header cells and status texts never contain ',' or '\n' |
| `CsvExport.ExportRoundTrip` | src/components/dashboard/VerificationHistory.tsx:49 | with no ',' or '\n' in any field, splitting the text at '\n' then ',' gives back the header and every result's six fields, in order |
| `CsvExport.ExportEmailColumn` | src/components/dashboard/VerificationHistory.tsx:49 | under the same condition the first column after the header is the list of addresses |
| `Auth.Debit` | src/contexts/AuthContext.tsx:101-105 | the new balance is `max(0, available - n)`: never negative, at least `available - n`, and either 0 or exactly `available - n`; `used` grows by exactly `n`; the plan limit is kept |
| `Auth.DebitUser` | src/contexts/AuthContext.tsx:107-110 | only the credits change; id, name, email and the admin flag are kept |
| `Auth.NewUser` | src/contexts/AuthContext.tsx:74-79 | the new record has the given name and address, id "user-" + time, and the demo user's credits and flags |
| `Auth.Session.constructor` | src/contexts/AuthContext.tsx:30-31 | no user, loading, storage as given |
| `Auth.Session.RestoreSession` | src/contexts/AuthContext.tsx:33-44 | a parseable stored record becomes the user; an absent or corrupt one leaves the user as it was; loading ends; storage is untouched |
| `Auth.Session.IsAuthenticated` | src/contexts/AuthContext.tsx:120 | authenticated exactly when a user is present |
| `Auth.Session.Login` | src/contexts/AuthContext.tsx:46-66 | success exactly for demo@example.com/password, which sets user and stored record to the demo user; failure changes neither; loading ends either way |
| `Auth.Session.Signup` | src/contexts/AuthContext.tsx:68-90 | always succeeds; user and stored record become the new record; loading ends |
| `Auth.Session.Logout` | src/contexts/AuthContext.tsx:92-96 | user none, stored record removed |
| `Auth.Session.UpdateUserCredits` | src/contexts/AuthContext.tsx:98-114 | a no-op without a user; otherwise user and stored record become the debited user; no admin check |
| `Auth.DebitExact` | src/contexts/AuthContext.tsx:101-105 | when the balance covers `n`, the debit is exact and available + used is conserved |
| `Auth.DebitTwice` | src/contexts/AuthContext.tsx:101-105 | two debits (the second non-negative) equal one debit of the sum |
| `Auth.DebitOverdraft` | src/contexts/AuthContext.tsx:101-105 | an overdraft clamps the balance at 0 while `used` still grows by the whole charge |
| `Auth.DemoUser` | src/data/mockData.ts:5-14 | the demo user is john.doe@example.com with 85 available, 15 used, limit 100 |
| `Verification.IsAdmin` | src/contexts/VerificationContext.tsx:41 | administrator exactly for e-mail admin@mailscribe.com or id admin-user-id |
| `Verification.Affords` | src/contexts/VerificationContext.tsx:44 | the credit gate passes for an administrator, or when the balance covers the count |
| `Verification.UploadBatchName` | src/contexts/VerificationContext.tsx:133 | the file name with its first ".csv" removed (properties in the `UploadName*` lemmas) |
| `Verification.BatchName` | src/contexts/VerificationContext.tsx:66 | the given name when present and non-empty, otherwise "Batch " + local date |
| `Verification.NewBatch` | src/contexts/VerificationContext.tsx:64-75 | the batch's counts are those of its results (total = number of results) and add up to the total; id, name and timestamp from the stamp |
| `Verification.Readable` | src/contexts/VerificationContext.tsx:141-154 | a read succeeds exactly when it delivers text that is not empty, since an empty result is falsy and rejects |
| `Verification.ParseCsvEmails` | src/contexts/VerificationContext.tsx:156-173 | returns exactly `CsvEmails(content)` |
| `Verification.Workflow.constructor` | src/contexts/VerificationContext.tsx:29-31 | no current results, the seed batches as history, not verifying; the history invariant holds |
| `Verification.Workflow.VerifyEmails` | src/contexts/VerificationContext.tsx:34-90 | not-logged-in exactly without a user; insufficient credits exactly for a non-admin with `available < |emails|` (duplicates counted); both leave results, history, user and storage unchanged. Otherwise: a rejected classifier changes nothing; a resolved one sets current results to the classifier output, puts the new batch in front of the unchanged history, debits exactly `|emails|` unless admin; busy flag ends false |
| `Verification.Workflow.VerifyUploadedFile` | src/contexts/VerificationContext.tsx:92-139 | one outcome per gate, in order: no user, no file, name not ending ".csv", read failure or empty text, no address extracted, insufficient credits; each changes nothing. Otherwise it has exactly the effect of `VerifyEmails` on the extracted addresses, named after the file minus its first ".csv" |
| `Verification.Workflow.ClearCurrentResults` | src/contexts/VerificationContext.tsx:175-177 | empties only the current results |
| `Verification.UploadNameDropsExtension` | src/contexts/VerificationContext.tsx:133 | a name with ".csv" only at its end gives its stem as batch name |
| `Verification.UploadNameKeepsLaterExtension` | src/contexts/VerificationContext.tsx:133 | a name with an earlier ".csv" keeps a ".csv" at the end of its batch name, since only the first is removed |
| `Verification.UploadNameShorter` | src/contexts/VerificationContext.tsx:103-133 | a name that passes the ".csv" gate loses exactly four characters |
| `Verification.SignupAsAdminIsExempt` | src/contexts/AuthContext.tsx:68-90 | a user signed up under admin@mailscribe.com is an administrator and passes the credit gate for any count |
| `ManualVerification.ParseEmailList` | src/components/dashboard/ManualVerification.tsx:22-25 | split at '\n' or ',', trim every piece, drop the empty ones (properties in `ParsedEntriesClean` and `TrimmedNonEmptyMembers`) |
| `ManualVerification.EmailCount` | src/components/dashboard/ManualVerification.tsx:33-38 | zero for an empty text area, otherwise the length of the parsed list |
| `ManualVerification.HasEnoughCredits` | src/components/dashboard/ManualVerification.tsx:41 | a logged-in user whose balance covers the count, with no exemption for administrators |
| `ManualVerification.VerifyButtonEnabled` | src/components/dashboard/ManualVerification.tsx:93 | enabled exactly when the count is non-zero, nothing is in flight and the credits suffice |
| `ManualVerification.TrimmedNonEmpty` | src/components/dashboard/ManualVerification.tsx:24-25 | every entry kept is non-empty and trimmed |
| `ManualVerification.OptionalName` | src/components/dashboard/ManualVerification.tsx:29 | an empty batch name becomes undefined, any other is passed as it is |
| `ManualVerification.Form.constructor` | src/components/dashboard/ManualVerification.tsx:13-14 | both fields start empty |
| `ManualVerification.Form.HandleVerify` | src/components/dashboard/ManualVerification.tsx:18-30 | the workflow is called exactly when the parsed list is non-empty; otherwise nothing changes. A call returns exactly the workflow's outcome for the parsed list: not logged in exactly without a user, insufficient credits exactly when the credit gate fails, failed exactly for a rejected classifier, verified exactly for a resolved one, with the workflow's effect, busy flag and unchanged loading flag |
| `ManualVerification.TrimmedNonEmptyMembers` | src/components/dashboard/ManualVerification.tsx:22-25 | an entry is in the list exactly when it is the non-empty trim of a piece |
| `ManualVerification.ParsedEntriesClean` | src/components/dashboard/ManualVerification.tsx:22-25 | every submitted entry is non-empty, trimmed and free of '\n' and ',' |
| `ManualVerification.BlankInputIgnored` | src/components/dashboard/ManualVerification.tsx:19-27 | input of only whitespace, '\n' and ',' parses to no address, so no call is made |
| `ManualVerification.EmailCountIsListLength` | src/components/dashboard/ManualVerification.tsx:33-38 | the count shown equals the length of the list submitted for the same input |
| `ManualVerification.EnabledPassesCreditGate` | src/components/dashboard/ManualVerification.tsx:41-93 | an enabled button implies a non-empty list, not verifying, a user and a passed workflow credit gate |
| `ManualVerification.AdminBlockedByForm` | src/components/dashboard/ManualVerification.tsx:41-93 | an administrator with too few credits cannot press the button although the workflow admits them |
| `ManualVerification.ManualBatchName` | src/components/dashboard/ManualVerification.tsx:29 | an empty name field gives the default "Batch <date>" |
| `FileUpload.PreviewEmails` | src/components/dashboard/FileUpload.tsx:30-43 | returns exactly the extraction of the first five lines |
| `FileUpload.Panel.constructor` | src/components/dashboard/FileUpload.tsx:11-12 | no file, empty preview |
| `FileUpload.Panel.HandleFileChange` | src/components/dashboard/FileUpload.tsx:18-46 | no selection changes nothing; a selection becomes the file; text that reads sets the preview, otherwise the old preview stays |
| `FileUpload.Panel.HandleUpload` | src/components/dashboard/FileUpload.tsx:48-56 | nothing without a file; otherwise exactly the upload outcome of the workflow, gate by gate (no user, name not ending ".csv", unreadable file, no address, insufficient credits, rejected, verified) with its effect and flags, then file none and empty preview |
| `FileUpload.Panel.ShowEllipsis` | src/components/dashboard/FileUpload.tsx:126 | the "..." is shown exactly when a file is selected and the preview has five entries |
| `FileUpload.Panel.ShowCreditWarning` | src/components/dashboard/FileUpload.tsx:132 | the warning is shown exactly for a selected file with a non-empty preview longer than a logged-in user's balance |
| `FileUpload.Panel.UploadDisabled` | src/components/dashboard/FileUpload.tsx:147 | the upload button is disabled exactly without a file or while a verification is in flight |
| `FileUpload.PreviewCanExceedFive` | src/components/dashboard/FileUpload.tsx:30-43 | one line of clean addresses previews all of them, so a preview can exceed five entries |
| `FileUpload.SingleLinePreview` | src/components/dashboard/FileUpload.tsx:30 | a text without line breaks is previewed in full |
| `VerificationHistory.Sanitize` | src/components/dashboard/VerificationHistory.tsx:54 | same length; ASCII letters and digits kept; every other character becomes '-' (per character, where the source works per UTF-16 code unit) |
| `VerificationHistory.Toggled` | src/components/dashboard/VerificationHistory.tsx:23-29 | collapses exactly when that id was expanded, otherwise expands that id |
| `VerificationHistory.Panel.constructor` | src/components/dashboard/VerificationHistory.tsx:21 | nothing expanded |
| `VerificationHistory.Panel.ToggleExpand` | src/components/dashboard/VerificationHistory.tsx:23-29 | the new expanded batch is `Toggled(old, id)` |
| `VerificationHistory.DownloadCsv` | src/components/dashboard/VerificationHistory.tsx:31-59 | nothing for an empty list; otherwise the export text under `Sanitize(name) + ".csv"` |
| `VerificationHistory.ToggleTwice` | src/components/dashboard/VerificationHistory.tsx:23-29 | toggling the same id twice from collapsed, or from that id, comes back |
| `VerificationHistory.ToggleOther` | src/components/dashboard/VerificationHistory.tsx:23-29 | toggling another id replaces the expanded one |
| `VerificationHistory.SanitizedCharset` | src/components/dashboard/VerificationHistory.tsx:54 | a sanitised name holds only letters, digits and '-' |
| `VerificationHistory.SanitizeIdempotent` | src/components/dashboard/VerificationHistory.tsx:54 | sanitising twice is sanitising once |
| `VerificationHistory.SanitizeFixedIffPlain` | src/components/dashboard/VerificationHistory.tsx:54 | a name is unchanged exactly when it holds only letters, digits and '-' |
| `VerificationHistory.ExportFileName` | src/components/dashboard/VerificationHistory.tsx:54 | the download name: the sanitised batch name followed by ".csv" |
| `VerificationHistory.ExportFileNameShape` | src/components/dashboard/VerificationHistory.tsx:54 | the file name is four longer than the batch name, ends with ".csv", and has no '.' before it |
| `VerificationResults.StatsOf` | src/components/dashboard/VerificationResults.tsx:52-72 | none exactly for no results; otherwise the total is the number of results |
| `VerificationResults.DownloadCsv` | src/components/dashboard/VerificationResults.tsx:21-49 | nothing without results; otherwise the same export text as the history panel, named "email-verification-<date>.csv" |
| `VerificationResults.ClearResults` | src/components/dashboard/VerificationResults.tsx:125 | current results emptied; history and busy flag untouched |
| `VerificationResults.StatsBound` | src/components/dashboard/VerificationResults.tsx:55-59 | valid + invalid + disposable + risky ≤ total, with equality exactly when no result is 'unknown' |
| `VerificationResults.FreshStatsAddUp` | src/components/dashboard/VerificationResults.tsx:55-59 | for classifier output the four counts add up to the total |
| `VerificationResults.DatePart` | src/components/dashboard/VerificationResults.tsx:44 | `iso.split("T")[0]` |
| `VerificationResults.ResultsFileName` | src/components/dashboard/VerificationResults.tsx:44 | "email-verification-" + the date part + ".csv" |
| `VerificationResults.DatePartOfIso` | src/components/dashboard/VerificationResults.tsx:44 | `iso.split("T")[0]` is the part before the first 'T' |
| `EmailVerificationTest.Trial.Remaining` | src/components/EmailVerificationTest.tsx:142 | in a reachable state the remaining count is between 0 and 3 |
| `EmailVerificationTest.Trial.constructor` | src/components/EmailVerificationTest.tsx:12-16 | empty address, no result, count 0, no prompt |
| `EmailVerificationTest.Trial.HandleVerify` | src/components/EmailVerificationTest.tsx:19-42 | an empty address or one without '@' changes nothing; a rejected call changes only the busy flag; a resolved one shows the classifier's result, adds one to the count and raises the prompt when the count before was at least 2; from a reachable state with the form shown, count ≤ 3 and prompt ⇔ count = 3 are kept |
| `EmailVerificationTest.Trial.TryThreeMore` | src/components/EmailVerificationTest.tsx:84-87 | count 0 and no prompt |
| `EmailVerificationTest.TrialResultIsForEmail` | src/components/EmailVerificationTest.tsx:29-30 | the result shown is the classification of the address typed |
| `SignUp.Form.constructor` | src/pages/Auth/SignUp.tsx:19-22 | all fields empty |
| `SignUp.Form.HandleSubmit` | src/pages/Auth/SignUp.tsx:26-41 | navigates exactly when the password has at least 6 characters; a shorter one sets "Password must be at least 6 characters" and leaves the session unchanged; otherwise the error is cleared and the user becomes the new record |
| `SignUp.Form.SubmitDisabled` | src/pages/Auth/SignUp.tsx:132 | the submit button is disabled exactly while the session is loading or a field is empty |

## Left out

- `MockData.MockVerificationResults`: all five seed results share one `loadTime`
  timestamp. The source calls `new Date()` separately for each, so their times may differ
  by milliseconds.

- Rendering, styling, icons, routing, toasts and `console.error` are left out. The model
  records which outcome occurred, but not the messages.
- Promises, `setTimeout` delays and React's batching of state updates are left out.
  Every handler is one atomic step. So `isVerifying` is never seen as true between calls,
  and the overlap of `verifyUploadedFile` and `verifyEmails` on that flag is not modelled.
- `FileReader` is left out. A file's content is given as `Option<string>`, and a read
  error or an empty result counts as a failed read.
- The Blob, URL and anchor-click downloads are left out. A download is a
  `Download(fileName, text)` value.
- `localStorage` and `JSON.parse`/`JSON.stringify` are left out. Storage is the `Storage`
  field, and `Corrupt` stands for text that does not parse.
- The `Math.random()` probabilities (70/10/10/10 and the personal/business coin) are left
  out. The oracle `draw` picks any branch.
- Floating-point values are left out: scores, the percentages of the results and history
  panels, the credits badge colours and the header progress bar. A score is its
  `toString` text.
- `uuidv4`, `Date.now`, `toISOString` and `toLocaleDateString` are left out. They are
  opaque strings given by the caller.
- The ">1000 addresses" informational toast is left out. It changes no state.
- `MockData.Fallback`: the random scores of the fallback branches are supplied by the
  caller. The model does not state their ranges.
- Strings are sequences of characters, whereas JavaScript lengths count UTF-16 code units.
  So string lengths, such as the six-character password gate, are measured in characters.
- `VerificationHistory.Sanitize` replaces each character, whereas the source's regex, which
  has no `u` flag, replaces each UTF-16 code unit. A character outside the Basic Multilingual
  Plane, such as an emoji, therefore becomes two '-' in the source but one '-' in the model.
- The sign-up form's catch branch, which shows "Error creating account. Please try
  again.", is left out. With storage abstracted as a field, the modelled `signup` cannot
  fail, so the branch has nothing to model. In the source, `localStorage.setItem` can throw,
  for example when the storage quota is full.
- Login.tsx, the landing page, the navigation bar, the footer, the logo, routing, the
  dashboard tabs and the status badge lookup table are not part of this model.
- `downloadSampleCsv` in FileUpload.tsx is left out. It writes a fixed text and changes no
  state.
