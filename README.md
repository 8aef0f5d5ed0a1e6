# ClientFlow CRM core in Dafny

ClientFlow is a small CRM. An Express/PostgreSQL backend serves clients, contracts, services and dossiers, a React front end shows them, and a Python service builds prompts for a local language model. This project models the parts of it that hold logic, and proves what they promise:

- **Recent activity** (`GET /api/activities/recent`). Two queries select the five clients with the highest ids and the five contracts with the latest start date. Client rows are stamped with the request time, both lists are merged, sorted newest first and cut to ten records. A failing query gives a 500.
- **Validation**. These are the e-mail and French phone-number predicates and the client and contract validators that collect error messages.
- **Calculations**. Revenue counts the running contracts (`actif`, `en_cours`). The module also has per-status contract counts, client completeness metrics, and the null branches of the expiry helpers.
- **Services**. `POST /assign` finds or creates a contract for a client, checks that the service exists and refuses a duplicate assignment. It is modelled as a `Store` class whose table fields the methods update, and which keeps the invariant that no contract/service pair is stored twice, for requests handled one at a time. Also here: removing an assignment, soft deletion of a service, and the `clients_count` of the service list.
- **Dossiers page**. This covers the `DOS-YYYYMM-NNN` reference, the status chip colour and the client filter (module `DossierFilter`). The page never parses a reference. `Dossiers.ParseDossierId` is the model's own reader, written to show that the reference keeps year, month and random number recoverable.
- **Chat context**. The context string is grown section by section (statistics, up to five clients, up to five contracts), then wrapped into the prompt.

Files:
- `common.dfy`: Option/Result.
- `text.dfy`: JavaScript whitespace, `trim`, UTF-16 length, decimal rendering, `padStart`.
- `ordering.dfy`: `ORDER BY … LIMIT k` as an insertion sort with top-k lemmas.
- One file per area: `activities.dfy`, `validation.dfy`, `calculations.dfy`, `services.dfy`, `dossiers.dfy`, `chatbot.dfy`.

Clocks, `Math.random`, query outcomes and request bodies are parameters. Timestamps are integer milliseconds.

## Model

| member | source | states |
|---|---|---|
| Ordering.TopIsTop | backend/routes/activities.js:19-20 | `ORDER BY … LIMIT k` returns min(k, n) rows, sorted, drawn from the table, and every row kept precedes every row left out |
| Ordering.SortBySorted | backend/routes/activities.js:19 | the sort behind `ORDER BY` yields a sorted sequence under any total preorder |
| Ordering.SortBy | backend/routes/activities.js:19 | the sort behind `ORDER BY`: a permutation of the table; SortBySorted adds that it is sorted |
| Ordering.Top | backend/routes/activities.js:19-20 | `ORDER BY … LIMIT k`; what it returns is stated by TopIsTop |
| Ordering.InsertSorted | backend/routes/activities.js:31 | inserting into a sorted sequence keeps it sorted |
| Activities.RecentClientsTop | backend/routes/activities.js:18-20 | the clients query returns min(5, n) rows in id-descending order, each row kept ranking above each row left out |
| Activities.RecentContractsTop | backend/routes/activities.js:30-32 | the contracts query returns min(5, n) rows by descending start date (NULLs first), each row kept ranking above each row left out |
| Activities.IdDescIsTotalPreorder | backend/routes/activities.js:19 | `ORDER BY id DESC` is a total preorder |
| Activities.StartDateDescIsTotalPreorder | backend/routes/activities.js:31 | `ORDER BY start_date DESC` with NULLs first is a total preorder |
| Activities.RecentClients | backend/routes/activities.js:18-20 | the client rows `ORDER BY id DESC LIMIT 5` selects; what they are is stated by RecentClientsTop and RecentClientsAreNewest |
| Activities.RecentContracts | backend/routes/activities.js:30-32 | the contract rows `ORDER BY start_date DESC LIMIT 5` selects, NULL dates first; stated by RecentContractsTop and RecentContractsAreLatest |
| Activities.ClientRecord | backend/routes/activities.js:13-17 | the select list of the clients query: type `client`, `Nouveau client : ` \|\| name (NULL when the name is), a NULL timestamp and the id; what reaches the feed is stated by FeedRecords |
| Activities.ContractRecord | backend/routes/activities.js:25-29 | the select list of the contracts query: type `contract`, `Contrat : ` \|\| COALESCE(title, `Sans titre`), the start date and the id; stated by FeedRecords |
| Activities.ClientsQuery | backend/routes/activities.js:12-21 | one record per selected client |
| Activities.ContractsQuery | backend/routes/activities.js:24-33 | one record per selected contract |
| Activities.Stamp | backend/routes/activities.js:47 | `{ ...c, timestamp: now }` replaces the timestamp and keeps every other field; stated by FeedOrigins and FeedRecords |
| Activities.Instant | backend/routes/activities.js:52 | the instant the comparator sees, `new Date(null)` being the epoch; the sort NewestFirst is stated over it |
| Activities.Merge | backend/routes/activities.js:46-49 | the stamped client rows followed by the contract rows; stated by CombinedLength and RecordOrigin |
| Activities.Combined | backend/routes/activities.js:35-49 | the merge of the two query results; stated by CombinedLength, RecordOrigin and FeedHoldsEverySelectedRow |
| Activities.SortNewestFirst | backend/routes/activities.js:52 | the in-place sort leaves the array non-increasing by instant and a permutation of what it was |
| Activities.InsertNewest | backend/routes/activities.js:52 | one insertion step extends the sorted prefix by one record and permutes the array |
| Activities.Recent | backend/routes/activities.js:35-59 | a failed query gives exactly the 500 `Erreur serveur` answer; otherwise the body has at most 10 records, is sorted newest first and is a permutation of the merged rows |
| Activities.CombinedLength | backend/routes/activities.js:46-49 | the merged list has one record per selected row, at most 10 |
| Activities.FeedLength | backend/routes/activities.js:20-54 | the slice to ten drops nothing: the feed length is min(5, clients) + min(5, contracts) |
| Activities.FeedOrigins | backend/routes/activities.js:46-49 | each feed record is a selected client row stamped with `now`, or a selected contract row unchanged |
| Activities.FeedRecords | backend/routes/activities.js:14-48 | client records carry `now`, their id and `Nouveau client : ` + name; contract records carry their id and start date and `Contrat : ` + title, or `Sans titre` when the title is NULL |
| Activities.RecordOrigin | backend/routes/activities.js:46-49 | each merged record describes a row of its table |
| Activities.FeedHoldsEverySelectedRow | backend/routes/activities.js:46-54 | every selected client and contract row appears in the feed |
| Activities.RecentClientsAreNewest | backend/routes/activities.js:19-20 | with unique ids, the kept clients have strictly decreasing ids and every client left out has a smaller id than every client kept |
| Activities.KeptAreDistinct | backend/routes/activities.js:19 | rows kept from a table with unique ids have strictly decreasing ids |
| Activities.UniqueIds | backend/routes/activities.js:17 | with unique ids, two rows with the same id are the same row, held once |
| Activities.RecentContractsAreLatest | backend/routes/activities.js:31-32 | kept contracts are ordered by descending start date, and a contract left out starts no later than any kept one |
| Activities.ClientsBeforeContracts | backend/routes/activities.js:47-52 | when every contract started before `now`, every client record precedes every contract record |
| Text.TrimIsInfix | backend/tests/validation.test.js:44 | `trim()` keeps the infix of the string between the whitespace it cuts from the front and the whitespace it cuts from the end: everything before and after what it keeps is whitespace |
| Text.TrimEnds | backend/tests/validation.test.js:44 | `trim()` gives the empty string exactly for all-whitespace input, and otherwise a string with no whitespace at either end |
| Text.Trim | backend/tests/validation.test.js:44 | `String.prototype.trim` as leading then trailing whitespace removed; stated by TrimIsInfix, TrimEnds and TrimKeeps |
| Text.TrimStart | backend/tests/validation.test.js:44 | the leading whitespace removed: the result is a suffix of the input, all that is cut is whitespace, and it does not start with whitespace |
| Text.TrimEnd | backend/tests/validation.test.js:44 | the trailing whitespace removed: the result is a prefix of the input, all that is cut is whitespace, and it does not end with whitespace |
| Text.Utf16Length | backend/tests/validation.test.js:44 | JavaScript `length` counts UTF-16 code units: between the number of characters and twice that number |
| Text.IntToString | frontend/src/pages/Dossiers.jsx:46 | `String(n)` of an integer: never empty, and it starts with `-` exactly for a negative number |
| Text.PadStart | frontend/src/pages/Dossiers.jsx:88-89 | `padStart(w, c)`: the input is kept as the suffix, only copies of `c` are added in front, up to length w and never shortening |
| Text.TrimKeeps | backend/tests/validation.test.js:78 | a string with no whitespace at either end is its own trim |
| Text.TrimKeepsLength | backend/tests/validation.test.js:44 | a string with no whitespace at either end keeps at least its character count as JavaScript length after `trim()` |
| Text.NatToStringRoundTrip | frontend/src/pages/Dossiers.jsx:88-89 | the decimal rendering of n reads back as n |
| Text.NatToStringLength | frontend/src/pages/Dossiers.jsx:88-89 | the rendering has at most k digits exactly when n < 10^k |
| Text.LeadingZerosValue | frontend/src/pages/Dossiers.jsx:88-89 | zeros added in front by `padStart` do not change the value |
| Validation.IndexOf | backend/tests/validation.test.js:4 | the result is the first position of the character, or none when it is absent |
| Validation.IsValidEmail | backend/tests/validation.test.js:3-6 | `isValidEmail` written as a first-`@` split into two atoms, the second holding an inner `.`; IsValidEmailMatchesPattern proves it accepts exactly what the regex matches |
| Validation.IsValidEmailMatchesPattern | backend/tests/validation.test.js:4 | the checker accepts exactly the strings of the form atom `@` atom `.` atom, with atoms free of whitespace and `@`; an accepted address has no whitespace and exactly one `@` |
| Validation.AcceptedMatches | backend/tests/validation.test.js:4 | an accepted string matches the pattern, has no whitespace and one `@` |
| Validation.AcceptedSplit | backend/tests/validation.test.js:4 | an accepted string splits at its `@` and at a later `.` into three atoms |
| Validation.AcceptedShape | backend/tests/validation.test.js:4 | an accepted string has no whitespace and one `@` |
| Validation.MatchedAccepted | backend/tests/validation.test.js:4 | a string made of three atoms joined by `@` and `.` is accepted |
| Validation.EmailSamplePlain | backend/tests/validation.test.js:9 | `test@example.com` is accepted |
| Validation.EmailSampleDotted | backend/tests/validation.test.js:10 | `user.name@domain.co.uk` is accepted |
| Validation.EmailSamplePlus | backend/tests/validation.test.js:11 | `firstname+lastname@company.org` is accepted |
| Validation.EmailSamplesRejected | backend/tests/validation.test.js:15-18 | `invalid.email`, `@example.com`, `test@` and `test @example.com` are rejected |
| Validation.NoDotRejected | backend/tests/validation.test.js:4 | a string without `.` is rejected |
| Validation.FirstCharAt | backend/tests/validation.test.js:4 | a string starting with `@` is rejected |
| Validation.WhitespaceRejected | backend/tests/validation.test.js:4 | a string holding any whitespace character is rejected |
| Validation.MatchesPhonePattern | backend/tests/validation.test.js:24 | `/^0[1-9]\d{8}$/`: ten characters, `0`, a digit from 1 to 9, eight digits; PhoneDigits restates it for digit strings |
| Validation.IsValidPhone | backend/tests/validation.test.js:23-26 | the pattern tested on the whitespace-stripped input; stated by PhoneIgnoresWhitespace, PhoneWithoutWhitespace and PhoneDigits |
| Validation.StripWhitespace | backend/tests/validation.test.js:25 | `replace(/\s/g, "")` leaves no whitespace and never lengthens the string |
| Validation.StripWhitespaceConcat | backend/tests/validation.test.js:25 | stripping distributes over concatenation |
| Validation.StripWhitespaceKeeps | backend/tests/validation.test.js:25 | a string without whitespace is left as it is |
| Validation.StripSkips | backend/tests/validation.test.js:25 | one whitespace character between two parts disappears |
| Validation.PhoneIgnoresWhitespace | backend/tests/validation.test.js:25 | inserting a whitespace character anywhere never changes the phone verdict |
| Validation.PhoneWithoutWhitespace | backend/tests/validation.test.js:24-25 | on a string without whitespace the verdict is the pattern `0[1-9]\d{8}` |
| Validation.PhoneDigits | backend/tests/validation.test.js:24-25 | a string of digits is accepted exactly when it has 10 digits, starts with `0` and its second digit is not `0` |
| Validation.PhoneSamplesAccepted | backend/tests/validation.test.js:29-31 | the three sample numbers are accepted |
| Validation.PhoneSamplesRejected | backend/tests/validation.test.js:35-37 | `123456789`, `06123` and `1234567890` are rejected |
| Validation.StripSpacedGroups | backend/tests/validation.test.js:25 | a number written in space-separated groups strips to the groups joined |
| Validation.PhoneSampleSpaced | backend/tests/validation.test.js:25 | `06 12 34 56 78` is accepted |
| Validation.AmountRejectedMeans | backend/tests/validation.test.js:81 | the amount is refused exactly when it is missing, not a number, or not above zero |
| Validation.NameRejected | backend/tests/validation.test.js:44 | `!data.name \|\| data.name.trim().length < 2`; ValidateClientData reports the name message exactly when it holds |
| Validation.EmailRejected | backend/tests/validation.test.js:47 | `data.email && !regex.test(data.email)`: a missing or empty email is not checked; ValidateClientData reports the email message exactly when it holds |
| Validation.TitleRejected | backend/tests/validation.test.js:78 | `!data.title \|\| data.title.trim().length < 3`; ValidateContractData reports the title message exactly when it holds |
| Validation.AmountRejected | backend/tests/validation.test.js:81 | `!data.amount \|\| isNaN(data.amount) \|\| data.amount <= 0` over JavaScript numbers; AmountRejectedMeans says it in plain words |
| Validation.ClientRejected | backend/tests/validation.test.js:84 | `!data.client_id`: missing, `null` or 0; ValidateContractData reports the client message exactly when it holds |
| Validation.ValidateClientData | backend/tests/validation.test.js:42-51 | valid exactly when no error; the name message is present iff the trimmed name is missing or shorter than 2, the e-mail message iff a non-empty e-mail fails the pattern; with both, the name message comes first |
| Validation.ValidateContractData | backend/tests/validation.test.js:76-88 | valid exactly when no error; each of the title, amount and client messages is present iff its check fails, at most once each, in the order of the checks |
| Validation.ClientSampleValid | backend/tests/validation.test.js:53-58 | the sample client passes both checks |
| Validation.ClientSampleInvalid | backend/tests/validation.test.js:60-72 | an empty name and `invalid-email` are refused; an absent or empty e-mail is not checked |
| Validation.ContractSampleValid | backend/tests/validation.test.js:90-95 | the sample contract passes all three checks |
| Validation.ContractSampleInvalid | backend/tests/validation.test.js:97-109 | an empty title and the amount -500 are refused |
| Calculations.RunningAmounts | backend/tests/calculation.test.js:5 | the filter keeps at most the contracts it is given |
| Calculations.Revenue | backend/tests/calculation.test.js:3-10 | `calculateRevenue` as the left fold of its `reduce`; RevenueIsSumOfRunning, RevenueConcat, RevenueIgnores and RevenueBounds state what it adds up |
| Calculations.SumConcat | backend/tests/calculation.test.js:6-9 | the sum distributes over concatenation |
| Calculations.RunningAmountsConcat | backend/tests/calculation.test.js:5 | the filter distributes over concatenation |
| Calculations.RevenueIsSumOfRunning | backend/tests/calculation.test.js:3-10 | revenue is the sum of the amounts of the running contracts, a missing amount as 0 |
| Calculations.RevenueConcat | backend/tests/calculation.test.js:3-10 | the revenue of two lists together is the sum of their revenues |
| Calculations.RevenueIgnores | backend/tests/calculation.test.js:5-7 | a contract that is not running, or has no amount, does not change the revenue |
| Calculations.NoRunningNoRevenue | backend/tests/calculation.test.js:5 | without running contracts the revenue is 0 |
| Calculations.RevenueBounds | backend/tests/calculation.test.js:3-10 | with non-negative amounts the revenue lies between 0 and the total of all amounts |
| Calculations.RevenueOfThree | backend/tests/calculation.test.js:6-9 | the revenue of three contracts is the sum of their revenues |
| Calculations.RevenueOfOne | backend/tests/calculation.test.js:5-8 | one contract contributes its amount if running, 0 otherwise |
| Calculations.RevenueSamples | backend/tests/calculation.test.js:12-49 | the test scenarios give 3500, 1000, 0 and 1000 |
| Calculations.CountStatus | backend/tests/calculation.test.js:56-59 | a status count never exceeds the number of contracts |
| Calculations.StatusCountsBounded | backend/tests/calculation.test.js:55-59 | the four status counts together never exceed the total |
| Calculations.GetContractStats | backend/tests/calculation.test.js:53-61 | the stats record holds the number of contracts, and its four status counts add up to at most that number |
| Calculations.ContractStatsEmpty | backend/tests/calculation.test.js:53-61 | no contracts give all-zero stats |
| Calculations.CountStatusOfFive | backend/tests/calculation.test.js:63-84 | the count over five contracts adds up the contracts one by one |
| Calculations.ContractStatsSample | backend/tests/calculation.test.js:63-84 | the test's five contracts give total 5, 2 active, 1 pending, 1 expired, 1 cancelled |
| Calculations.CountWithEmail | backend/tests/calculation.test.js:129 | at most the number of clients |
| Calculations.CountWithPhone | backend/tests/calculation.test.js:130 | at most the number of clients |
| Calculations.CountComplete | backend/tests/calculation.test.js:131 | at most the number of clients |
| Calculations.ClientMetricsBounds | backend/tests/calculation.test.js:126-133 | complete clients number at most those with an e-mail and at most those with a phone, and those with an e-mail or a phone number at most the total |
| Calculations.GetClientMetrics | backend/tests/calculation.test.js:126-133 | the metrics record counts all clients, and its `complete` count is at most the e-mail count and at most the phone count, with e-mail + phone − complete at most the total |
| Calculations.ClientMetricsSample | backend/tests/calculation.test.js:135-148 | the test's clients give the expected metrics |
| Calculations.DaysUntilExpiration | backend/tests/calculation.test.js:93-100 | no end date gives null; otherwise the number of days d is the ceiling: (d - 1) days < end - now <= d days |
| Calculations.NullEndDate | backend/tests/calculation.test.js:89-94 | a missing end date is never expired and has no days left |
| Calculations.IsContractExpired | backend/tests/calculation.test.js:88-100 | an expired contract has a day count, at most 0; a dated contract not yet expired has at least 0 days left |
| Calculations.DateSamples | backend/tests/calculation.test.js:102-122 | a past date is expired, a future one is not, and one day ahead gives 1 |
| Services.FindActiveContract | backend/routes/services.js:123-129 | none exactly when the client has no `actif`/`en_cours` contract; otherwise the highest id among them |
| Services.Without | backend/routes/services.js:185-188 | the DELETE removes every copy of the pair and keeps every other link |
| Services.SetInactive | backend/routes/services.js:78 | the UPDATE clears `is_active` on the service with that id and changes nothing else |
| Services.Store.constructor | backend/routes/services.js:111-194 | the tables start as given and satisfy the invariant |
| Services.Store.Assign | backend/routes/services.js:111-179 | the target comes from `client_id` (existing active contract or a new `Contrat Services`), else from `contract_id`, else 400; then 404 for an unknown service, 400 for a pair already stored, otherwise the pair is appended with 201; the no-duplicate invariant is kept |
| Services.Store.RemoveLink | backend/routes/services.js:182-194 | the links lose exactly that pair, nothing else changes, the answer is the fixed message |
| Services.Store.Deactivate | backend/routes/services.js:75-84 | services become `SetInactive` of the old ones, nothing else changes |
| Services.ClientIdTakesPrecedence | backend/routes/services.js:121-140 | with `client_id` given, `contract_id` is ignored and a target always exists |
| Services.Resolve | backend/routes/services.js:121-143 | where the contract of `POST /assign` comes from; stated by ClientIdTakesPrecedence and ResolveClient |
| Services.NewContract | backend/routes/services.js:133-136 | the row the INSERT creates; stated by NewContractShape |
| Services.ServiceExists | backend/routes/services.js:146-153 | `SELECT id FROM services WHERE id = $1` finds a row, active or not; Store.Assign answers 404 exactly when it fails |
| Services.ResolveClient | backend/routes/services.js:121-139 | with `client_id` given, the target is the client's newest active contract if there is one, else a new contract with a fresh id |
| Services.NewContractShape | backend/routes/services.js:133-136 | the created contract belongs to the client, is titled `Contrat Services`, has status `en_cours`, amount `prix_convenu` or 0 and start date `date_debut` or now |
| Services.WithoutKeepsNoDuplicates | backend/routes/services.js:185-188 | removing a pair keeps the no-duplicate invariant |
| Services.WithoutIdempotent | backend/routes/services.js:185-188 | removing the same pair twice is removing it once |
| Services.WithoutAbsent | backend/routes/services.js:185-188 | removing a pair that is not there changes nothing |
| Services.SetInactiveIdempotent | backend/routes/services.js:78 | deactivating twice is deactivating once |
| Services.OnceEach | backend/routes/services.js:157-164 | under the invariant each pair is held at most once |
| Services.LinkCount | backend/routes/services.js:23 | the count is at most the number of links |
| Services.LinkCountIsDistinctContracts | backend/routes/services.js:23-26 | under the invariant, `COUNT(cs.service_id)` equals the number of distinct contracts linked to the service |
| Services.AssignCountsOnce | backend/routes/services.js:167-170 | an assignment raises its service's count by one and leaves other counts alone |
| Services.RemoveCounts | backend/routes/services.js:185-188 | removing a stored pair lowers its service's count by one |
| Services.LinkCountByMultiset | backend/routes/services.js:23 | the count splits into the copies of one pair plus the rest |
| Services.WithoutConcat | backend/routes/services.js:185-188 | removal distributes over concatenation |
| Services.IdDescIsTotalPreorder | backend/routes/services.js:27 | `ORDER BY s.id DESC` is a total preorder |
| Services.ListServices | backend/routes/services.js:9-36 | the `GET /` rows with their link counts, by descending id; stated by ListServicesSpec |
| Services.ListServicesSpec | backend/routes/services.js:9-36 | the list has one row per service, holds every service with its link count, and is ordered by descending id |
| Dossiers.ZeroPaddedDigits | frontend/src/pages/Dossiers.jsx:88-89 | a number below 10^w padded to w digits is exactly w digits denoting that number |
| Dossiers.DossierId | frontend/src/pages/Dossiers.jsx:86-90 | the `DOS-${year}${month}-${random}` reference; stated by DossierIdLayout, DossierIdLength and DossierIdRoundTrip |
| Dossiers.MonthSegment | frontend/src/pages/Dossiers.jsx:88 | the month segment is two digits from 01 to 12, denoting `getMonth() + 1` |
| Dossiers.RandomSegment | frontend/src/pages/Dossiers.jsx:89 | the random segment is three digits denoting the drawn number |
| Dossiers.DossierIdLayout | frontend/src/pages/Dossiers.jsx:86-90 | the reference is `DOS-`, the year, the two month digits, `-` and the three random digits, in that order |
| Dossiers.PaddedValue | frontend/src/pages/Dossiers.jsx:88-89 | left-padding a digit string with zeros to width w gives w digits of the same value |
| Dossiers.ParseLayout | frontend/src/pages/Dossiers.jsx:86-90 | any reference laid out as `DOS-`, year digits, two month digits, `-` and three digits reads back as those values |
| Dossiers.DossierIdLength | frontend/src/pages/Dossiers.jsx:86-90 | with a four-digit year the reference has 14 characters |
| Dossiers.DossierIdRoundTrip | frontend/src/pages/Dossiers.jsx:86-90 | year, month and random number can be read back from the reference |
| Dossiers.StatusColorCases | frontend/src/pages/Dossiers.jsx:101-108 | exactly `actif`, `en_cours` and `fermé` get a colour other than `default`, each a different one (`success`, `warning`, `error`) |
| Dossiers.StatusColor | frontend/src/pages/Dossiers.jsx:101-108 | `getStatusColor`; stated by StatusColorCases |
| DossierFilter.KeepStrict | frontend/src/pages/Dossiers.jsx:46 | the page's filter keeps exactly the dossiers whose `client_id` strictly equals the parameter string, each no more often than the list holds it |
| DossierFilter.KeepStrictConcat | frontend/src/pages/Dossiers.jsx:46 | the filter as written keeps the order of the list, as `Array.prototype.filter` does |
| DossierFilter.Filtering | frontend/src/pages/Dossiers.jsx:45 | `if (clientId)`: a present, non-empty parameter; FilterFixedKeepsClient states that a missing or empty one keeps every dossier |
| DossierFilter.StrictlyEqual | frontend/src/pages/Dossiers.jsx:46 | `===` between a JSON value and a string: true only for a string with the same characters |
| DossierFilter.FilterAsWritten | frontend/src/pages/Dossiers.jsx:45-47 | without a non-empty `client` parameter the list is kept whole; otherwise the result is a sub-multiset of the list, so the filter only drops dossiers |
| DossierFilter.FilterAsWrittenIsEmpty | frontend/src/pages/Dossiers.jsx:45-47 | when the rows carry numeric or null `client_id`s, choosing a client as written always leaves an empty list |
| DossierFilter.FilterAsWrittenDropsMatch | frontend/src/pages/Dossiers.jsx:46 | client 7's dossier is dropped under `?client=7` |
| DossierFilter.KeepRendered | frontend/src/pages/Dossiers.jsx:46 | the intended filter keeps exactly the dossiers whose rendered `client_id` equals the parameter, each no more often than the list holds it |
| DossierFilter.ToJsString | frontend/src/pages/Dossiers.jsx:46 | `String(v)`: a number renders as a sign or a digit followed by its digits, never as `null` |
| DossierFilter.FilterFixed | frontend/src/pages/Dossiers.jsx:45-47 | the intended filter keeps the list whole without a parameter, and otherwise returns a sub-multiset of the list |
| DossierFilter.KeepRenderedConcat | frontend/src/pages/Dossiers.jsx:46 | the intended filter keeps the order of the list |
| Text.IntToStringInjective | frontend/src/pages/Dossiers.jsx:46 | distinct integers render differently |
| DossierFilter.FilterFixedKeepsClient | frontend/src/pages/Dossiers.jsx:45-47 | under `?client=k` the intended filter keeps exactly the dossiers of client k; without the parameter, or with it empty, it keeps everything |
| Chatbot.FirstFive | ai-service/chatbot.py:30-40 | `[:5]` is the prefix of length min(5, n) |
| Chatbot.ShowReadsBack | ai-service/chatbot.py:18-20 | an f-string prints a non-negative integer as decimal digits that denote it |
| Chatbot.ShowTellsIntsApart | ai-service/chatbot.py:18-20 | two integers print alike only when they are equal |
| Chatbot.GetAfterStore | ai-service/chatbot.py:18-20 | `dict.get` returns a stored value whatever the default, is unaffected by storing under another key, and gives the default on an empty dictionary |
| Chatbot.BuildContext | ai-service/chatbot.py:11-42 | growing the context with `+=` yields exactly the context function |
| Chatbot.AppendSection | ai-service/chatbot.py:28-42 | a list section appends the heading, one line per entry of the first five and a blank line, all only for a non-empty list |
| Chatbot.BuildPrompt | ai-service/chatbot.py:11-50 | the prompt is the context wrapped with the question and the instruction |
| Chatbot.HeaderOnly | ai-service/chatbot.py:11-13 | the context is the header line alone exactly when there is no data or none of the three sections can print |
| Chatbot.SectionOpeners | ai-service/chatbot.py:15-42 | each section is non-empty exactly when it prints, and then opens with its heading |
| Chatbot.StatsFirstIffPresent | ai-service/chatbot.py:15-22 | right after the header comes the statistics heading exactly when `stats` is present |
| Chatbot.SectionOrder | ai-service/chatbot.py:15-42 | for any subset of the three sections that prints, the headings come in the order statistics, clients, contracts, each where the sections before it end, and the context is exactly header plus the three parts |
| Chatbot.StatsDefaults | ai-service/chatbot.py:17-21 | missing counts and revenue print as 0 |
| Chatbot.StatsReadsThreeKeys | ai-service/chatbot.py:17-21 | only `clientCount`, `contractCount` and `revenue` affect the statistics block |
| Chatbot.ClientLineDefaults | ai-service/chatbot.py:31 | a missing name or e-mail prints `N/A`; present strings print as they are; a key holding `None` prints `None` |
| Chatbot.ClientLineReadsTwoKeys | ai-service/chatbot.py:31 | only `name` and `email` affect a client line |
| Chatbot.ContractLineDefaults | ai-service/chatbot.py:41 | a contract without keys prints id and status `N/A` and amount 0 |
| Chatbot.ContractLineReadsThreeKeys | ai-service/chatbot.py:41 | only `id`, `montant` and `status` affect a contract line, so an `amount` key never shows |
| Chatbot.StatsBlock | ai-service/chatbot.py:17-22 | the statistics block; stated by StatsDefaults and StatsReadsThreeKeys |
| Chatbot.ClientLine | ai-service/chatbot.py:31 | one client line; stated by ClientLineDefaults and ClientLineReadsTwoKeys |
| Chatbot.ContractLine | ai-service/chatbot.py:41 | one contract line; stated by ContractLineDefaults and ContractLineReadsThreeKeys |
| Chatbot.ListSection | ai-service/chatbot.py:25-42 | a list section; stated by ListSectionShowsFirstFive and ListSectionSkipped |
| Chatbot.Context | ai-service/chatbot.py:11-42 | the context string; BuildContext is proved to compute it, and HeaderOnly, SectionOrder and StatsFirstIffPresent state its shape |
| Chatbot.Prompt | ai-service/chatbot.py:44-50 | the prompt; stated by PromptShape and PromptInjective |
| Chatbot.LinesConcat | ai-service/chatbot.py:30-41 | the lines of a concatenation are the lines of each part, in order |
| Chatbot.ListSectionShowsFirstFive | ai-service/chatbot.py:28-42 | a non-empty list prints its heading, the lines of its first min(5, n) entries in order and a blank line; entries after the fifth never matter |
| Chatbot.ListSectionSkipped | ai-service/chatbot.py:25-38 | a missing key, a value that is not a list, or an empty list prints nothing |
| Chatbot.SixthEntryIgnored | ai-service/chatbot.py:30 | adding a sixth client leaves the context unchanged |
| Chatbot.PromptShape | ai-service/chatbot.py:44-50 | the prompt opens with the context, then the question lead-in and the message, and ends with the instruction and `Réponse:` |
| Chatbot.PromptInjective | ai-service/chatbot.py:44-50 | different questions over the same context give different prompts |

## Left out

- Express routing, authentication middleware, logging and the `res`/`req` plumbing. The handlers become functions and methods over their inputs.
- The SQL engine. Queries are functions over in-memory rows. `ORDER BY … LIMIT` is an insertion sort, so the order among equal keys is whatever that sort gives.
- `Promise.all` in the activity feed. It becomes two independent query outcomes, each of which may fail.
- The clock. `new Date()` and date parsing become integer millisecond instants passed in.
- `Math.random`. The random number 0..999 of the dossier reference is a parameter.
- `parseFloat` and floating-point amounts. Contract amounts are `Option<int>`; a value that does not parse is `None` and counts as 0. The validator's amount is a real or NaN.
- The 500 answers of the services routes and of the dossier submission, and foreign-key and uniqueness errors raised by the database. The model assumes these queries succeed. Only the activity feed models query failure.
- The services CRUD routes (`POST /`, `PUT /:id`, `GET /contract/:contractId`). They pass data through with no logic.
- The React rendering and the `useState` setters of the dossier page. The Ollama call and its error branch in the chat service.
- Calculations.DaysUntilExpiration: uses an exact integer ceiling of the millisecond difference divided by a day, not JavaScript's `Math.ceil` on a float quotient.
- Activities.ClientsBeforeContracts: requires every contract to start strictly before `now`. With equal instants the order rests on the stability of `Array.prototype.sort`, and the model does not fix the order of equal keys.
- Activities.SortNewestFirst: proves a sorted permutation, not stability.
- Concurrent `POST /assign` requests. The duplicate check (backend/routes/services.js:157-164) and the insert (backend/routes/services.js:167-170) are separate queries with no transaction and no UNIQUE constraint, so two interleaved requests can both insert the same pair. `Services.Store.Assign` runs each request as one atomic step, and its no-duplicate invariant holds only for requests handled one at a time.
- Activities.Combined: `new Date()` is called once per client row (backend/routes/activities.js:47), so stamps may differ by a few milliseconds. The model stamps every client row with one `now`.
- Activities.RecentClients, Activities.RecentContracts: when keys tie at the fifth place, PostgreSQL may keep any of the tied rows. The insertion sort fixes one choice, and `IsFeed` commits to it. The lemmas about what is kept (RecentClientsAreNewest, RecentContractsAreLatest) hold for any choice.
- Validation: `.length` is counted in UTF-16 code units (`Text.Utf16Length`). `padStart` in the dossier reference works on digits only, where code points and code units agree.
- Chatbot: `crm_data` is modelled as a dictionary with the three keys it reads. Other keys are ignored, and an empty dictionary behaves as no data, as in Python's truthiness test.
- Chatbot: values that are floats, lists or nested objects are not modelled, since Python's `str` of them is not. Nor are `stats` or list entries that are not dictionaries, where `.get` would raise.
- Chatbot: the `FreeChatbot` class only holds the constant model name used by the Ollama call, so it is not modelled as a class.

## Findings

| source | as written | input that shows it | evidently intended | confidence | as-written member | corrected member |
|---|---|---|---|---|---|---|
| frontend/src/pages/Dossiers.jsx:46 | `d.client_id === clientId` compares the numeric `client_id` of each dossier row (assumed to reach the page as a JSON number; the schema is not part of this model, and node-postgres would send a `bigint` column as a string, in which case the comparison works) with the string read from the URL, which is never strictly equal | dossiers `[{client_id: 7, …}]` with `?client=7` give an empty list | keep the dossiers whose `client_id` renders as the parameter, `String(d.client_id) === clientId` | not executed | DossierFilter.FilterAsWrittenDropsMatch | DossierFilter.FilterFixedKeepsClient |
