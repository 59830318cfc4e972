# Koperasi client: a verified model of its list, export and form logic

This project models, in Dafny, the browser client of a cooperative's savings
and loans system ("koperasi"). Administrators review loan applications
(`pinjaman`), loan settlements (`pelunasan`) and members' savings (`simpanan`),
edit or delete savings records and record new deposits. Employees (`karyawan`)
see their own loans and savings, with a monthly savings chart. Every screen
talks to a Laravel JSON API through a bearer token kept in `localStorage`.

The model covers the logic of those screens:

- the two pagination shapes the API answers with, and how each table reads them;
- the page buttons and the client-side re-filter by status and "YYYY-MM" month;
- the CSV exports, with a CSV reader proving that every export reads back as its header and rows;
- the "download all" loops that walk every page;
- the per-year dividend cache: which keys to ask for, and how the answers are merged;
- the validation and the requests of the sign-in, sign-up, loan, proof-upload, savings-edit and deposit forms;
- the menu highlighting, log-out and the route guard.

Each React component whose state changes step by step is a `class`. Its
`useState` hooks are fields, and each handler is a method that changes them. A
handler's network call is a parameter: either the answer the server gave, or
the failure it raised. A handler returns the request it sends. Pure helpers such
as `csvEscape`, `getMonthKey`, `normalizePagination` and `parseMoney` are
functions, and the properties promised about them are lemmas. JavaScript values
are modelled explicitly:

- `null` and `undefined` are `Js.Option`;
- the result of `Number(...)` is `Js.Num`, an exact real or NaN;
- a text is a `string`.

Modules follow the source:

- `Js`: JavaScript semantics the client relies on.
- `Csv`: escaping, plus a reader for the round trips.
- `Pagination`: the wire shapes, query building, the page buttons and the export crawl.
- `ListFilter`: month keys and the client-side re-filter.
- `Dividends`: the cache plan and merge.
- One module per screen: `Header`, `AuthGuard`, `SignIn`, `SignUp`, `LoanForm`, `MyLoans`, `Loans`, `Settlements`, `AdminSavings`, `MySavings`, `SavingsChart`, `AddSavings`.

## Model

| member | source | states |
|---|---|---|
| Header.ActiveMeansSegmentPrefix | components/header.js:36-37 | a menu entry is active exactly when the path is present, starts with the entry's href, and either ends there or continues with "/" |
| Header.SharedTextPrefixIsNotActive | components/header.js:37 | "/admin2" does not activate "/admin", while "/admin/data" does |
| Header.MenuTitle | components/header.js:106-110 | the admin label for role `admin`, the employee label for any other non-empty role, the loading text when no role is known |
| Header.Identity | components/header.js:13-25 | a failed `/me` clears the name and the role; a role that is kept is never the empty text |
| Header.Logout | components/header.js:39-63 | the token is removed and every other stored key keeps its value; the destination is the admin sign-in exactly when the saved role is `admin` or the path starts with "/admin", else the employee sign-in |
| Header.LogoutIgnoresServerAnswer | components/header.js:52-56 | the outcome of logging out is the same whether `POST /logout` failed or not |
| AuthGuard.BasePath | components/auth-guard.js:13 | the base is `admin` exactly when the path starts with "/admin", else `karyawan` |
| AuthGuard.Guard.constructor | components/auth-guard.js:10 | the children are hidden, no redirect and no `/me` call yet, storage as given |
| AuthGuard.Guard.Check | components/auth-guard.js:15-42 | without a token: sign-in page of the area, no `/me` call, storage untouched; `/me` failing: token dropped and sign-in page; a role outside `allow`: that role's home and no children; children shown exactly when a token exists, `/me` answered and the role is allowed |
| AuthGuard.RoleHomeIsAdmitted | components/auth-guard.js:7-29 | a user redirected for their role lands on a page of their own area, which the default allow list admits |
| SignIn.CompleteEmail | app/admin/sign-in/components/sign-in.js:25-26 | the trimmed input is kept when it holds "@", else "@koperasi.com" is appended; the result always holds "@" |
| SignIn.CompleteEmailIdempotent | app/karyawan/sign-in/components/sign-in.js:23-24 | completing an already completed address changes nothing |
| SignIn.RegisteredAddressSignsIn | app/admin/sign-in/components/sign-in.js:25-26 | for a valid local part, signing in with the local part or with the full address uses exactly the address sign-up registered |
| SignIn.Home | app/karyawan/sign-in/components/sign-in.js:30-31 | "/admin" exactly for role `admin`, "/karyawan" for every other role or none |
| SignIn.Submit | app/admin/sign-in/components/sign-in.js:16-47 | no request exactly when a field is empty (with the fixed error, storage untouched); otherwise the completed address is sent; success stores the token and goes to the role's home; failure shows the server message or the fixed fallback and changes nothing else |
| SignIn.SuccessfulLoginLeavesToken | app/admin/sign-in/components/sign-in.js:30-33 | after a successful login the stored token is the one the server returned |
| SignUp.StripAt | app/admin/sign-up/components/sign-up.js:32 | removing from "@" on gives a prefix of the input, and a text without "@" is unchanged |
| SignUp.StripAtFirst | app/admin/sign-up/components/sign-up.js:32 | on a one-line text the cut is exactly at the first "@" |
| SignUp.Email | app/admin/sign-up/components/sign-up.js:32-33 | the address ends with "@koperasi.com", and what precedes it is a prefix of the input, the whole input when it holds no "@" |
| SignUp.ValidLocalEmail | app/admin/sign-up/components/sign-up.js:19-33 | a local part that passes validation goes into the address unchanged, and the address's first "@" follows it directly |
| SignUp.AstralPasswordIsLongEnough | app/admin/sign-up/components/sign-up.js:21 | four characters above U+FFFF are eight code units and pass the password check |
| SignUp.FieldErrors | app/admin/sign-up/components/sign-up.js:16-22 | each field has a message exactly when its check fails (name trimmed shorter than 3, local part empty or outside `[A-Za-z0-9._%+-]`, password shorter than 8, lengths in UTF-16 code units), with the fixed texts; no messages exactly when all pass |
| SignUp.SignUpForm.constructor | app/admin/sign-up/components/sign-up.js:10-14 | empty fields, no errors, no destination |
| SignUp.SignUpForm.Validate | app/admin/sign-up/components/sign-up.js:16-25 | the form's errors become the failing fields' messages and the answer is true exactly when the inputs are valid |
| SignUp.FirstMessage | app/admin/sign-up/components/sign-up.js:47 | an array gives its first element (none when empty), a single value gives itself |
| SignUp.FormField | app/admin/sign-up/components/sign-up.js:48 | the server field `email` is shown on `emailLocal`; every other field keeps its name |
| SignUp.EntriesOf | app/admin/sign-up/components/sign-up.js:46 | an object's entries are kept in order; an array's entries are its indices as text with its elements |
| SignUp.FormErrors | app/admin/sign-up/components/sign-up.js:45-51 | a form field has an entry exactly when some server field maps to it |
| SignUp.FormErrorsLastWins | app/admin/sign-up/components/sign-up.js:46-49 | a form field holds the first message of the last server entry that maps to it |
| SignUp.EmailErrorsShowOnLocalField | app/admin/sign-up/components/sign-up.js:48 | no `email` key is left on the form, and `emailLocal` shows the last `email` entry's first message |
| SignUp.MapServerErrors | app/admin/sign-up/components/sign-up.js:45-51 | the loop writing the entries one by one builds exactly `FormErrors` |
| SignUp.FailureErrors | app/admin/sign-up/components/sign-up.js:43-54 | without server field errors the form shows exactly one non-empty `general` message |
| SignUp.SignUpForm.Submit | app/admin/sign-up/components/sign-up.js:27-56 | a request is sent exactly when the inputs are valid, with the composed address; invalid inputs show exactly the failing fields' messages; success goes to the admin sign-in with no errors; failure shows the mapped server errors or the general message |
| LoanForm.DefaultDateRoundTrip | app/karyawan/menu-pinjaman/components/form-pinjaman.js:17-22 | the default date splits at its dashes into the year, a two-digit month and a two-digit day, which read back as the year, `getMonth() + 1` and the day |
| LoanForm.DefaultDateChars | app/karyawan/menu-pinjaman/components/form-pinjaman.js:17-22 | the default date holds only digits and dashes |
| LoanForm.Payload | app/karyawan/menu-pinjaman/components/form-pinjaman.js:46-51 | amount, phone and address are sent as typed; `submitted_at` is present exactly when a date is set and is that date followed by " 00:00:00" |
| LoanForm.StampSplits | app/karyawan/menu-pinjaman/components/form-pinjaman.js:48 | a space-free date stamped with midnight splits at the space into the date and "00:00:00" |
| LoanForm.DefaultStampSplits | app/karyawan/menu-pinjaman/components/form-pinjaman.js:17-48 | the timestamp sent for the default date splits back into that date and midnight |
| LoanForm.SubmitOutcome | app/karyawan/menu-pinjaman/components/form-pinjaman.js:53-60 | success goes to "/karyawan" with no error; failure stays, showing the server message, else the exception message, else the fixed text, never an empty one |
| MyLoans.LoansOf | app/karyawan/daftar-pinjaman/components/table-pinjaman-saya.js:24 | an array body is the list; otherwise its `data`, else no loans |
| MyLoans.MyLoansTable.constructor | app/karyawan/daftar-pinjaman/components/table-pinjaman-saya.js:7-15 | no loans, no error, the dialog closed with no loan, file, amount or error |
| MyLoans.ProofForm | app/karyawan/daftar-pinjaman/components/table-pinjaman-saya.js:106-109 | `loan_id` comes first and always; `amount` is present exactly when typed and carries it; `proof` is present exactly when a file is chosen and carries it; nothing else |
| MyLoans.MyLoansTable.Load | app/karyawan/daftar-pinjaman/components/table-pinjaman-saya.js:17-35 | success replaces the rows and clears the error; failure keeps the rows and shows the message chain |
| MyLoans.MyLoansTable.OpenUpload | app/karyawan/daftar-pinjaman/components/table-pinjaman-saya.js:83-89 | reached only for an approved loan; the dialog opens for that loan with no file, no amount and no error, and the selected loan stays an approved one |
| MyLoans.MyLoansTable.ClickUpload | app/karyawan/daftar-pinjaman/components/table-pinjaman-saya.js:176-187 | the "Upload Bukti" button opens the dialog exactly when the loan is approved; on any other loan it is disabled and nothing changes; a selected loan stays an approved one |
| MyLoans.MyLoansTable.PressSend | app/karyawan/daftar-pinjaman/components/table-pinjaman-saya.js:253-259 | while sending or without a chosen file the "Kirim Bukti" button is disabled and nothing is sent or changed; otherwise a form is sent exactly when a loan is selected, and it carries the proof file for an approved loan |
| MyLoans.MyLoansTable.CloseUpload | app/karyawan/daftar-pinjaman/components/table-pinjaman-saya.js:91-97 | the dialog closes with no loan, file, amount or error left |
| MyLoans.MyLoansTable.SubmitProof | app/karyawan/daftar-pinjaman/components/table-pinjaman-saya.js:99-125 | called only with a file chosen and nothing in flight; a sent form always has a proof field and belongs to an approved loan; nothing is sent and nothing changes without a selected loan; otherwise the form holds the loan id first, the typed amount exactly when one was typed and the chosen file exactly when one was chosen; success closes and empties the dialog and reloads; failure keeps the dialog open with its contents and shows the message; sending ends |
| Js.Split | app/admin/data-simpanan/components/table-simpanan.js:111 | no piece holds the separator, there is at least one piece, and joining the pieces with the separator gives the text back |
| Js.SplitPair | app/admin/data-simpanan/components/table-simpanan.js:111 | a text made of two separator-free sides around one separator splits into exactly those two sides |
| Js.Trim | app/admin/sign-in/components/sign-in.js:25 | the result is a slice of the input with only white space before and after it, and neither starts nor ends with white space |
| Js.Utf16Length | app/admin/sign-up/components/sign-up.js:18-21 | `.length` is between the number of characters and twice it, and equals it exactly when no character is above U+FFFF |
| Js.TrimUnchanged | app/admin/sign-in/components/sign-in.js:25 | a text with no white space at either end is its own trim |
| Js.LoadErrorMessage | app/admin/data-pinjaman/components/table-pinjaman.js:64-66 | the server message, else the exception message, else the fallback: never empty when the fallback is not |
| Js.ServerMessage | app/admin/data-simpanan/components/table-simpanan.js:214 | the server message, else the fallback: never empty when the fallback is not |
| Js.ActionErrorMessage | app/admin/data-pinjaman/components/table-pinjaman.js:163-168 | the server message, else an errors array joined with ", " (or the exception message), else the fallback: never empty when the fallback is not |
| Js.FirstErrorMessage | app/admin/data-simpanan/components/table-simpanan.js:182-187 | with server errors, the first entry's first message, else the fallback; without them, the server message, else the fallback: never empty when the fallback is not |
| Js.NumberOfNat | app/admin/data-simpanan/components/table-simpanan.js:156 | a whole number written in decimal is read back by `Number` as itself |
| Js.NumberOfPointed | app/admin/data-simpanan/components/table-simpanan.js:156 | digits, a point and digits are read by `Number` as the whole part plus the fraction |
| Csv.DoubleQuotes | app/admin/data-pelunasan/components/table-pelunasan.js:158 | doubling the quotes never shortens the text |
| Csv.Field | app/admin/data-pelunasan/components/table-pelunasan.js:154-161 | a value is left as it is exactly when it holds no `"`, "," or LF; otherwise it is wrapped in quotes |
| Csv.Escape | app/admin/data-pelunasan/components/table-pelunasan.js:154-156 | `null`/`undefined` give the empty field, a present value its escaped field |
| Csv.Fields | app/admin/data-pelunasan/components/table-pelunasan.js:173-181 | each value is escaped in place |
| Csv.Records | app/admin/data-pelunasan/components/table-pelunasan.js:173-182 | each row becomes its record, in order |
| Csv.ReadFieldRoundTrip | app/admin/data-pelunasan/components/table-pelunasan.js:154-161 | an escaped field read by a CSV reader gives the original value back, and the reader stops at the following ",", LF or end |
| Csv.ReadRecordRoundTrip | app/admin/data-pelunasan/components/table-pelunasan.js:173-181 | a record of escaped fields reads back as exactly its values |
| Csv.ReadDocumentRoundTrip | app/admin/data-pelunasan/components/table-pelunasan.js:173-182 | a document of records joined with LF reads back as exactly its rows, in order |
| Csv.PlainHeaderRecord | app/admin/data-pelunasan/components/table-pelunasan.js:182 | joining header names unescaped gives the same text as escaping them, when no name needs quotes |
| Csv.WithHeaderRoundTrip | app/karyawan/daftar-simpanan/components/table-simpanan-saya.js:113-132 | an export of a plain header and escaped rows reads back as the header followed by the rows |
| Pagination.Normalize | app/admin/data-pelunasan/components/table-pelunasan.js:85-108 | the items are the array body or its `data`; a classic body's fields are copied; otherwise `meta` is read with the fallbacks (requested page, last page 1, item count, from 1) and the links give prev/next |
| Pagination.ShapesAgree | app/admin/data-pelunasan/components/table-pelunasan.js:87-106 | the classic and the wrapped encoding of the same page normalise to the same descriptor |
| Pagination.BareArrayIsOnePage | app/admin/data-pelunasan/components/table-pelunasan.js:86-106 | a bare array is one whole page: all items, current page the requested one, last page 1, total the item count, no links |
| Pagination.SavingsFetch | app/admin/data-simpanan/components/table-simpanan.js:66-83 | a failure gives no rows and page 1 of 1 with total 0; an answer gives its items, `current_page ?? page`, `last_page ?? 1`, `total ?? item count` |
| Pagination.SavingsIgnoreWrappedMeta | app/admin/data-simpanan/components/table-simpanan.js:66-83 | a wrapped answer is always read as the requested page of a single page, whatever its `meta` says |
| Pagination.SetFilters | app/admin/data-simpanan/components/table-simpanan.js:52-58 | a filter is sent exactly when its value is not empty |
| Pagination.QueryOf | app/admin/data-simpanan/components/table-simpanan.js:52-58 | the query carries the page and exactly the filters that are set |
| Pagination.PrevPage | app/admin/data-pelunasan/components/table-pelunasan.js:485-489 | never below 1, one less when above 1 |
| Pagination.NextPage | app/admin/data-pelunasan/components/table-pelunasan.js:495-504 | never above the last page, one more when below it |
| Pagination.PagingStaysInRange | app/admin/data-pelunasan/components/table-pelunasan.js:485-504 | from a page within 1..last both buttons stay within 1..last |
| Pagination.RowNumbersAreOrdered | app/admin/data-simpanan/components/table-simpanan.js:298 | on 20-row pages a row further on (later page, or same page further down) always has a larger number |
| Pagination.CollectAllPages | app/admin/data-pelunasan/components/table-pelunasan.js:213-234 | the do-while loop over the answers ends exactly as the crawl specification does: items collected, a failure, or answers exhausted |
| Pagination.CrawlVisitsEveryPage | app/admin/data-pelunasan/components/table-pelunasan.js:213-234 | against a server serving pages 1..last as asked, the loop requests exactly pages 1..last and collects all their items in page order |
| Pagination.CrawlStartsAtPageOne | app/admin/data-pelunasan/components/table-pelunasan.js:214-222 | a run that gets past its first answer started with page 1 |
| ListFilter.MonthKey | app/admin/data-pelunasan/components/table-pelunasan.js:67-76 | an absent or empty timestamp gives ""; an unreadable one its first seven characters |
| ListFilter.IsoDate | app/admin/data-pelunasan/components/table-pelunasan.js:60-65 | an absent or empty timestamp gives ""; an unreadable one the text itself |
| ListFilter.MonthKeyShape | app/admin/data-pelunasan/components/table-pelunasan.js:70-73 | a date with a four-digit year gives a key of the month input's shape whose parts read back as the year and month |
| ListFilter.MonthKeyIdentifiesMonth | app/admin/data-pelunasan/components/table-pelunasan.js:67-76 | two such dates have equal keys exactly when they have the same year and month |
| ListFilter.Keep | app/admin/data-pelunasan/components/table-pelunasan.js:142-149 | every kept row passes the status and month tests |
| ListFilter.KeepMembership | app/admin/data-pelunasan/components/table-pelunasan.js:142-149 | a row is kept exactly when it is one of the rows and passes both tests |
| ListFilter.DisplayedMembership | app/admin/data-pelunasan/components/table-pelunasan.js:142-149 | the displayed rows are exactly the rows that pass both tests, also when no filter is set |
| ListFilter.KeepDistributes | app/admin/data-pelunasan/components/table-pelunasan.js:236-245 | filtering concatenated pages equals concatenating the filtered pages |
| ListFilter.DisplayedDistributes | app/admin/data-pelunasan/components/table-pelunasan.js:236-245 | the same for the displayed rows |
| ListFilter.KeepIdempotent | app/admin/data-pelunasan/components/table-pelunasan.js:142-149 | filtering twice gives the same rows as filtering once |
| ListFilter.KeepAllPassing | app/admin/data-pelunasan/components/table-pelunasan.js:142-149 | rows that all pass are all kept, in order |
| ListFilter.Suffix | app/admin/data-pelunasan/components/table-pelunasan.js:201-203 | the suffix is empty exactly when no filter is set, starts with "_" and the month when a month is set, ends with "_" and the status when a status is set, and has no other characters |
| Dividends.Distinct | app/admin/data-simpanan/components/table-simpanan.js:101-106 | the keys once each, and exactly the keys given |
| Dividends.Uncached | app/admin/data-simpanan/components/table-simpanan.js:108-110 | exactly the keys with no cache entry |
| Dividends.Jobs | app/admin/data-simpanan/components/table-simpanan.js:108-115 | each needed key with no cache entry, once; no job exactly when every needed key is cached |
| Dividends.DistinctUncachedCommute | app/admin/data-simpanan/components/table-simpanan.js:101-110 | dropping repeats and dropping cached keys may be done in either order (the employee screens consult the cache first) |
| Dividends.Merged | app/admin/data-simpanan/components/table-simpanan.js:123-130 | the new cache has the old keys plus the requested ones; untouched entries keep their value; each requested key holds its answer's value, 0 for a failure |
| Dividends.Merge | app/admin/data-simpanan/components/table-simpanan.js:123-130 | the loop writing one entry per answer builds exactly `Merged` |
| Dividends.MergeIsAppendOnly | app/admin/data-simpanan/components/table-simpanan.js:123-130 | merging the answers for the missing keys never changes a cached entry |
| Dividends.MergeSettles | app/admin/data-simpanan/components/table-simpanan.js:98-137 | after the merge the same rows need no further request |
| Dividends.MonthLabel | app/karyawan/daftar-simpanan/components/table-simpanan-saya.js:28 | "" for an absent or empty month; otherwise the month's first seven characters (all of it when shorter) |
| Dividends.YearOf | app/admin/data-simpanan/components/table-simpanan.js:222 | at most four characters |
| Settlements.Badge | app/admin/data-pelunasan/components/table-pelunasan.js:78-83 | success badge exactly for `approved`, error badge exactly for `rejected`, the plain badge for anything else |
| Settlements.Cells | app/admin/data-pelunasan/components/table-pelunasan.js:173-181 | one value per header column: the id, the ISO paid date, the status, the loan id, the first truthy of the loan's user name and the user name, the loan amount or else the amount, and "ya" or "tidak" by whether the settlement has a proof |
| Settlements.CellRows | app/admin/data-pelunasan/components/table-pelunasan.js:173-181 | one row of values per settlement, in order |
| Settlements.HeaderIsPlain | app/admin/data-pelunasan/components/table-pelunasan.js:164-172 | no header name needs quoting, so the unescaped header line is a valid record |
| Settlements.ToCsvRoundTrip | app/admin/data-pelunasan/components/table-pelunasan.js:163-183 | the export reads back as the header followed by each settlement's values |
| Settlements.ExportAllCoversEveryPage | app/admin/data-pelunasan/components/table-pelunasan.js:210-251 | against a server serving pages 1..last, the "download all" file holds exactly the filtered settlements of every page in order, under the filter-suffixed name |
| Settlements.SettlementTable.constructor | app/admin/data-pelunasan/components/table-pelunasan.js:7-33 | page 1, status filter "submitted", no month, no rows, no dialog |
| Settlements.SettlementTable.RequestQuery | app/admin/data-pelunasan/components/table-pelunasan.js:114-116 | the page, with `status` and `month` sent exactly when set |
| Settlements.SettlementTable.Load | app/admin/data-pelunasan/components/table-pelunasan.js:110-133 | an answer is normalised into rows and meta with the error cleared; a failure empties rows and meta and shows the message chain; filters, page and dialog untouched |
| Settlements.SettlementTable.SetMonthFilter | app/admin/data-pelunasan/components/table-pelunasan.js:346-349 | the month filter takes the value and the page goes back to 1 |
| Settlements.SettlementTable.SetStatusFilter | app/admin/data-pelunasan/components/table-pelunasan.js:357-360 | the status filter takes the value and the page goes back to 1 |
| Settlements.SettlementTable.Prev | app/admin/data-pelunasan/components/table-pelunasan.js:485-489 | when enabled the page goes down by one and stays at least 1 |
| Settlements.SettlementTable.Next | app/admin/data-pelunasan/components/table-pelunasan.js:495-504 | when enabled the page goes up by one and never past the last page |
| Settlements.SettlementTable.DownloadCurrent | app/admin/data-pelunasan/components/table-pelunasan.js:199-208 | the displayed rows as CSV, named after the shown page and the filter suffix |
| Settlements.SettlementTable.DownloadAll | app/admin/data-pelunasan/components/table-pelunasan.js:210-257 | the outcome of the page loop with the current filters: the file, or the alert |
| Settlements.DecisionPath | app/admin/data-pelunasan/components/table-pelunasan.js:317-321 | the POST goes under "/settlements/" to the settlement's id and ends in "/approve" exactly for an approval |
| Settlements.SettlementTable.OpenConfirm | app/admin/data-pelunasan/components/table-pelunasan.js:299-304 | reached only for a submitted settlement; the dialog opens on it and the decision with no error, and the selection stays a submitted one |
| Settlements.SettlementTable.ClickDecide | app/admin/data-pelunasan/components/table-pelunasan.js:449-462 | Approve and Reject open the dialog exactly when the settlement is submitted; otherwise they are disabled and nothing changes; the selection stays a submitted one |
| Settlements.SettlementTable.RowNo | app/admin/data-pelunasan/components/table-pelunasan.js:432 | the row number is the row's position on the page plus the page's `from` (1 when absent or without meta) |
| Settlements.SettlementTable.CloseConfirm | app/admin/data-pelunasan/components/table-pelunasan.js:305-310 | the dialog closes with nothing selected and no error |
| Settlements.SettlementTable.Confirm | app/admin/data-pelunasan/components/table-pelunasan.js:312-335 | a decision is posted only for a submitted settlement; nothing without a selection; otherwise the approve/reject POST; success closes the dialog and refetches; failure keeps it open with the action message chain |
| Loans.Badge | app/admin/data-pinjaman/components/table-pinjaman.js:121-134 | one badge per known status (`applied`, `approved`, `rejected`, `paid`), each exactly for it, and the plain badge exactly for the rest |
| Loans.Cells | app/admin/data-pinjaman/components/table-pinjaman.js:209-217 | one value per header column: id, ISO submission date, name, amount, phone, address and status, each empty when absent |
| Loans.CellRows | app/admin/data-pinjaman/components/table-pinjaman.js:209-217 | one row of values per loan, in order |
| Loans.HeaderIsPlain | app/admin/data-pinjaman/components/table-pinjaman.js:200-208 | no header name needs quoting |
| Loans.ToCsvRoundTrip | app/admin/data-pinjaman/components/table-pinjaman.js:199-219 | the export reads back as the header followed by each loan's values |
| Loans.ExportAllCoversEveryPage | app/admin/data-pinjaman/components/table-pinjaman.js:243-284 | against a server serving pages 1..last, the file holds exactly the filtered loans of every page in order |
| Loans.ResetLastRequest | app/admin/data-pinjaman/components/table-pinjaman.js:297-302 | as written, the last request "Reset" sends is unfiltered exactly when the page was not 1 or no filter was set |
| Loans.ResetOnFirstPageKeepsOldFilter | app/admin/data-pinjaman/components/table-pinjaman.js:297-301 | as written, on page 1 with status "approved" the only request "Reset" sends still asks for approved loans |
| Loans.IntendedResetClearsFilters | app/admin/data-pinjaman/components/table-pinjaman.js:297-301 | the intended reset sends only unfiltered requests for page 1 |
| Loans.LoanTable.constructor | app/admin/data-pinjaman/components/table-pinjaman.js:7-26 | page 1, no filters, no rows, no dialog |
| Loans.LoanTable.RequestQuery | app/admin/data-pinjaman/components/table-pinjaman.js:32-34 | the page, with `status` and `month` sent exactly when set |
| Loans.LoanTable.Load | app/admin/data-pinjaman/components/table-pinjaman.js:28-72 | an answer is normalised into loans and meta with the error cleared; a failure empties them and shows the message chain; filters, page and dialog untouched |
| Loans.LoanTable.SetMonthFilter | app/admin/data-pinjaman/components/table-pinjaman.js:313 | only the month filter changes (the frame is that one field); no page change and no request |
| Loans.LoanTable.SetStatusFilter | app/admin/data-pinjaman/components/table-pinjaman.js:319 | only the status filter changes (the frame is that one field); no page change and no request |
| Loans.LoanTable.ApplyFilters | app/admin/data-pinjaman/components/table-pinjaman.js:292-295 | the page becomes 1; page 1 is requested with the current filters, and once more by the page effect when the page was not 1 |
| Loans.LoanTable.ResetFilters | app/admin/data-pinjaman/components/table-pinjaman.js:297-302 | both filters cleared and page 1; the requests are those of the corrected reset (see Findings): page 1 with the cleared filters, a second time when the page was not 1 |
| Loans.LoanTable.Prev | app/admin/data-pinjaman/components/table-pinjaman.js:458-459 | when enabled the page goes down by one and stays at least 1 |
| Loans.LoanTable.Next | app/admin/data-pinjaman/components/table-pinjaman.js:466-467 | when enabled the page goes up by one and never past the last page |
| Loans.LoanTable.DownloadCurrent | app/admin/data-pinjaman/components/table-pinjaman.js:235-241 | the displayed loans as CSV, named after the page and the filter suffix |
| Loans.LoanTable.DownloadAll | app/admin/data-pinjaman/components/table-pinjaman.js:243-290 | the outcome of the page loop with the current filters: the file, or the alert |
| Loans.DecisionPath | app/admin/data-pinjaman/components/table-pinjaman.js:155-159 | the POST goes under "/loans/" to the loan's id and ends in "/approve" exactly for an approval |
| Loans.LoanTable.OpenModal | app/admin/data-pinjaman/components/table-pinjaman.js:136-141 | reached only for an applied loan; the dialog opens on it and the decision with no error, and the selection stays an applied one |
| Loans.LoanTable.ClickDecide | app/admin/data-pinjaman/components/table-pinjaman.js:423-436 | Approve and Reject open the dialog exactly when the loan is applied; otherwise they are disabled and nothing changes; the selection stays an applied one |
| Loans.LoanTable.CloseModal | app/admin/data-pinjaman/components/table-pinjaman.js:143-148 | the dialog closes with nothing selected and no error |
| Loans.LoanTable.Confirm | app/admin/data-pinjaman/components/table-pinjaman.js:150-173 | a decision is posted only for an applied loan; nothing without a selection; otherwise the approve/reject POST; success closes the dialog and refetches; failure keeps it open with the action message chain |
| AdminSavings.NeededKey | app/admin/data-simpanan/components/table-simpanan.js:103-105 | a key is asked for only when the member id and the month are truthy and the month starts with four digits, and it is then the row's lookup key `id-year` |
| AdminSavings.NeededKeys | app/admin/data-simpanan/components/table-simpanan.js:102-106 | every key a row asks for is among the keys collected |
| AdminSavings.NeededKeysOnlyNeeded | app/admin/data-simpanan/components/table-simpanan.js:102-106 | every collected key is asked for by some row |
| AdminSavings.JobFor | app/admin/data-simpanan/components/table-simpanan.js:111-112 | a job keeps the key it was made from |
| AdminSavings.JobForKey | app/admin/data-simpanan/components/table-simpanan.js:111-120 | for a positive id and a four-digit year the key splits back into the id and the year, and the year is sent as its value |
| AdminSavings.DividendShown | app/admin/data-simpanan/components/table-simpanan.js:222-228 | a dividend is shown exactly when the row's key is cached, otherwise the placeholder |
| AdminSavings.DividendsSettleForRows | app/admin/data-simpanan/components/table-simpanan.js:98-137 | after the answers are merged every row that asks for a dividend shows one, and a row that showed one still shows the same |
| AdminSavings.Cleaned | app/admin/data-simpanan/components/table-simpanan.js:156 | only digits, "." and "-" are kept, and a text made of them is kept whole |
| AdminSavings.ValidateEdit | app/admin/data-simpanan/components/table-simpanan.js:156-162 | accepted exactly when the cleaned amount reads as a finite number of at least 1 and the type is `wajib`, `pokok` or `sukarela`; the amount is checked first, each refusal with its own message |
| AdminSavings.WholeAmountAccepted | app/admin/data-simpanan/components/table-simpanan.js:156-162 | a whole amount of at least 1 with a known type is accepted as itself |
| AdminSavings.DottedThousandsReadAsDecimal | app/admin/data-simpanan/components/table-simpanan.js:156 | "Rp " and digits with one dot are accepted with the dot read as a decimal point, so "Rp 50.000" is 50 |
| AdminSavings.Patched | app/admin/data-simpanan/components/table-simpanan.js:171-177 | rows with the edited id get the new amount and type, every other row is unchanged, the length stays |
| AdminSavings.PatchedKeepsIdsAndSettles | app/admin/data-simpanan/components/table-simpanan.js:171-177 | patching keeps every id and applying it twice is applying it once |
| AdminSavings.Removed | app/admin/data-simpanan/components/table-simpanan.js:209 | exactly the rows whose id differs are kept |
| AdminSavings.RemovedSnoc | app/admin/data-simpanan/components/table-simpanan.js:209 | the kept rows keep their order, repeats included: a row appended at the end is kept at the end exactly when its id differs |
| AdminSavings.RemovedIsIdempotent | app/admin/data-simpanan/components/table-simpanan.js:209 | removing twice is removing once |
| AdminSavings.TotalAfterDelete | app/admin/data-simpanan/components/table-simpanan.js:210 | one less than a positive total, and never below 0 |
| AdminSavings.AdminSavingsTable.constructor | app/admin/data-simpanan/components/table-simpanan.js:7-30 | page 1 of 1, no filters, empty cache, no dialog |
| AdminSavings.AdminSavingsTable.RequestQuery | app/admin/data-simpanan/components/table-simpanan.js:52-58 | the page, with `month`, `type` and `user_id` sent exactly when set |
| AdminSavings.AdminSavingsTable.Load | app/admin/data-simpanan/components/table-simpanan.js:60-96 | rows and meta become the savings reading of the answer; filters, page, cache and dialogs untouched |
| AdminSavings.AdminSavingsTable.SetFilterMonth | app/admin/data-simpanan/components/table-simpanan.js:230-232 | the month filter takes the value and the page goes back to 1 |
| AdminSavings.AdminSavingsTable.SetFilterType | app/admin/data-simpanan/components/table-simpanan.js:230-232 | the type filter takes the value and the page goes back to 1 |
| AdminSavings.AdminSavingsTable.SetFilterUserId | app/admin/data-simpanan/components/table-simpanan.js:230-232 | the member filter takes the value and the page goes back to 1 |
| AdminSavings.AdminSavingsTable.Prev | app/admin/data-simpanan/components/table-simpanan.js:326-327 | the page goes down by one, never below 1 |
| AdminSavings.AdminSavingsTable.Next | app/admin/data-simpanan/components/table-simpanan.js:336-338 | the page goes up by one, never past the last page |
| AdminSavings.AdminSavingsTable.RowNo | app/admin/data-simpanan/components/table-simpanan.js:298 | the row number is at least the row's position on the page plus one |
| AdminSavings.AdminSavingsTable.CollectPairs | app/admin/data-simpanan/components/table-simpanan.js:101-106 | the loop over the rows collects each needed key once, in first-seen order |
| AdminSavings.AdminSavingsTable.PlanJobs | app/admin/data-simpanan/components/table-simpanan.js:108-114 | the loop over the keys makes one job per uncached key, in order, each split from its key |
| AdminSavings.AdminSavingsTable.PlanDividends | app/admin/data-simpanan/components/table-simpanan.js:101-115 | the jobs are exactly the shared plan for the rows' keys |
| AdminSavings.AdminSavingsTable.StoreDividends | app/admin/data-simpanan/components/table-simpanan.js:123-131 | the cache becomes the merge of the answers for the jobs' keys |
| AdminSavings.AdminSavingsTable.OpenEdit | app/admin/data-simpanan/components/table-simpanan.js:139-144 | the edit dialog opens on the row with its amount text and type |
| AdminSavings.AdminSavingsTable.CloseEdit | app/admin/data-simpanan/components/table-simpanan.js:146-151 | the edit dialog closes with empty amount and type |
| AdminSavings.AdminSavingsTable.HandleUpdate | app/admin/data-simpanan/components/table-simpanan.js:153-192 | nothing without a row, and nothing changes; a refused edit alerts its message, sends nothing and keeps the editor, its texts and the sending flag as they were; an accepted one sends the PUT, then patches the rows and closes on success, or keeps the rows, the editor and its texts and shows the first server error on failure; the sending flag ends false after a PUT |
| AdminSavings.AdminSavingsTable.CommitEdit | app/admin/data-simpanan/components/table-simpanan.js:164-188 | success patches the rows, clears the editor and reports "Berhasil diupdate."; failure keeps the rows, the edited row and the amount and type texts, and reports the first server error |
| AdminSavings.AdminSavingsTable.OpenDelete | app/admin/data-simpanan/components/table-simpanan.js:194-197 | the delete dialog opens on the row |
| AdminSavings.AdminSavingsTable.CloseDelete | app/admin/data-simpanan/components/table-simpanan.js:199-202 | the delete dialog closes |
| AdminSavings.AdminSavingsTable.HandleDelete | app/admin/data-simpanan/components/table-simpanan.js:204-218 | nothing without a row; otherwise the DELETE; success drops the row, lowers the total and closes; failure keeps all and shows the server message |
| MySavings.NeededYear | app/karyawan/daftar-simpanan/components/table-simpanan-saya.js:80-82 | a year is asked for exactly when the month is truthy and starts with four digits, and it is those four digits |
| MySavings.NeededYears | app/karyawan/daftar-simpanan/components/table-simpanan-saya.js:79-83 | every year a row asks for is among the years collected |
| MySavings.NeededYearsOnlyNeeded | app/karyawan/daftar-simpanan/components/table-simpanan-saya.js:79-83 | every collected year is asked for by some row |
| MySavings.YearRequestValue | app/karyawan/daftar-simpanan/components/table-simpanan-saya.js:90 | a four-digit year is sent as its value, at most 9999 |
| MySavings.HeadersArePlain | app/karyawan/daftar-simpanan/components/table-simpanan-saya.js:114-120 | no header name of either export needs quoting |
| MySavings.PageCells | app/karyawan/daftar-simpanan/components/table-simpanan-saya.js:121-130 | the row number from the current page, the month label, the type, the amount and the year's cached dividend or 0 |
| MySavings.PageCellRows | app/karyawan/daftar-simpanan/components/table-simpanan-saya.js:121-131 | one row of values per row of the page, numbered by position |
| MySavings.PageCsvRoundTrip | app/karyawan/daftar-simpanan/components/table-simpanan-saya.js:113-133 | the current-page export reads back as its header and each row's values |
| MySavings.AllCells | app/karyawan/daftar-simpanan/components/table-simpanan-saya.js:172-180 | the 1-based position, the month label, the type and the amount |
| MySavings.AllCellRows | app/karyawan/daftar-simpanan/components/table-simpanan-saya.js:172-180 | one row of values per gathered row, numbered from 1 |
| MySavings.ExportAllRoundTrip | app/karyawan/daftar-simpanan/components/table-simpanan-saya.js:136-182 | after a first answer the export is a file that reads back as the header and the rows numbered 1..n |
| MySavings.GatheredAllAnswered | app/karyawan/daftar-simpanan/components/table-simpanan-saya.js:150-169 | when every page 2..last answers, their items are all gathered in page order |
| MySavings.ExportAllReadsOnlyTopLevelLastPage | app/karyawan/daftar-simpanan/components/table-simpanan-saya.js:147 | a wrapped first answer exports only its own items, whatever its `meta.last_page` |
| MySavings.YearsToFetch | app/karyawan/daftar-simpanan/components/table-simpanan-saya.js:78-83 | the loop collects each needed uncached year once, in first-seen order |
| MySavings.CollectPages | app/karyawan/daftar-simpanan/components/table-simpanan-saya.js:138-169 | the first page's items followed by those of every answered page 2..last |
| MySavings.NumberRows | app/karyawan/daftar-simpanan/components/table-simpanan-saya.js:172-180 | the loop numbering the gathered rows builds exactly their value rows |
| MySavings.MySavingsTable.constructor | app/karyawan/daftar-simpanan/components/table-simpanan-saya.js:6-15 | page 1 of 1, no filters, no rows, empty cache |
| MySavings.MySavingsTable.RequestQuery | app/karyawan/daftar-simpanan/components/table-simpanan-saya.js:34-39 | the page, with `month` and `type` sent exactly when set |
| MySavings.MySavingsTable.Load | app/karyawan/daftar-simpanan/components/table-simpanan-saya.js:41-73 | rows and meta become the savings reading of the answer; filters, page and cache untouched |
| MySavings.MySavingsTable.SetFilterMonth | app/karyawan/daftar-simpanan/components/table-simpanan-saya.js:109-111 | the month filter takes the value and the page goes back to 1 |
| MySavings.MySavingsTable.SetFilterType | app/karyawan/daftar-simpanan/components/table-simpanan-saya.js:109-111 | the type filter takes the value and the page goes back to 1 |
| MySavings.MySavingsTable.Prev | app/karyawan/daftar-simpanan/components/table-simpanan-saya.js:291-292 | the page goes down by one, never below 1 |
| MySavings.MySavingsTable.Next | app/karyawan/daftar-simpanan/components/table-simpanan-saya.js:301-303 | the page goes up by one, never past the last page |
| MySavings.MySavingsTable.CollectYears | app/karyawan/daftar-simpanan/components/table-simpanan-saya.js:75-87 | the years requested are exactly the shared plan for the rows' years, although the cache is consulted before the dedupe |
| MySavings.MySavingsTable.StoreDividends | app/karyawan/daftar-simpanan/components/table-simpanan-saya.js:93-101 | the cache becomes the merge of the answers |
| MySavings.MySavingsTable.DividendForYear | app/karyawan/daftar-simpanan/components/table-simpanan-saya.js:29-32 | a dividend exactly when the year is cached, and then its cached value |
| MySavings.MySavingsTable.DownloadCurrent | app/karyawan/daftar-simpanan/components/table-simpanan-saya.js:113-134 | the page's rows as CSV, named after the current page |
| MySavings.MySavingsTable.ExportAllPages | app/karyawan/daftar-simpanan/components/table-simpanan-saya.js:136-187 | the alert when the first request fails, otherwise the all-pages file |
| SavingsChart.BelowIrreflexive | app/karyawan/beranda/components/grafik-simpanan.js:131 | no label sorts before itself |
| SavingsChart.BelowTransitive | app/karyawan/beranda/components/grafik-simpanan.js:131 | the sort order is transitive |
| SavingsChart.BelowTotal | app/karyawan/beranda/components/grafik-simpanan.js:131 | of two different labels one sorts before the other |
| SavingsChart.Insert | app/karyawan/beranda/components/grafik-simpanan.js:131 | inserting a new label into an ascending list keeps it ascending and adds exactly that label |
| SavingsChart.Sort | app/karyawan/beranda/components/grafik-simpanan.js:131 | distinct labels sorted: ascending, the same labels, the same count |
| SavingsChart.AscendingIsUnique | app/karyawan/beranda/components/grafik-simpanan.js:131 | two ascending lists of the same labels are equal, so the sorted result does not depend on the key order |
| SavingsChart.Labels | app/karyawan/beranda/components/grafik-simpanan.js:126-127 | each row's month label, in order |
| SavingsChart.SumFor | app/karyawan/beranda/components/grafik-simpanan.js:126-130 | 0 for a label no row has |
| SavingsChart.TotalsMeaning | app/karyawan/beranda/components/grafik-simpanan.js:125-130 | the totals object has an entry exactly for each label, holding the sum of that label's finite amounts |
| SavingsChart.ChartMonthsAreSortedLabels | app/karyawan/beranda/components/grafik-simpanan.js:131-132 | the chart's months are the sorted distinct labels |
| SavingsChart.ChartMonths | app/karyawan/beranda/components/grafik-simpanan.js:124-133 | one point per distinct label, ascending, no repeats |
| SavingsChart.ChartTotals | app/karyawan/beranda/components/grafik-simpanan.js:132 | each point's total is the sum of its month's finite amounts |
| SavingsChart.ChartKeepsTheSum | app/karyawan/beranda/components/grafik-simpanan.js:124-133 | the points' totals add up to the sum of all rows' finite amounts |
| SavingsChart.FillTotals | app/karyawan/beranda/components/grafik-simpanan.js:125-130 | the loop builds exactly the totals object and its keys in first-seen order |
| SavingsChart.SavingsTrend.constructor | app/karyawan/beranda/components/grafik-simpanan.js:17-26 | no rows and an empty cache |
| SavingsChart.SavingsTrend.ChartData | app/karyawan/beranda/components/grafik-simpanan.js:124-133 | the chart data is the chart of the rows |
| SavingsChart.SavingsTrend.CollectYears | app/karyawan/beranda/components/grafik-simpanan.js:86-95 | the years requested are exactly the shared plan for the rows' years |
| SavingsChart.SavingsTrend.StoreDividends | app/karyawan/beranda/components/grafik-simpanan.js:97-112 | the cache becomes the merge of the answers |
| AddSavings.CleanMoney | app/admin/tambah-simpanan/components/tambah-simpanan.js:18 | exactly the digits, ".", "," and "-" of the text are kept, and a text of them is kept whole |
| AddSavings.NumberOfMoney | app/admin/tambah-simpanan/components/tambah-simpanan.js:24-27 | a comma left in the text reads as NaN |
| AddSavings.ParseMoney | app/admin/tambah-simpanan/components/tambah-simpanan.js:16-28 | 0 for an empty text |
| AddSavings.ParseMoneyReadsCleanedText | app/admin/tambah-simpanan/components/tambah-simpanan.js:17-18 | only the cleaned characters matter |
| AddSavings.ParseMoneyNoComma | app/admin/tambah-simpanan/components/tambah-simpanan.js:26-27 | a clean text without a comma is read by `Number` directly, 0 when that is NaN |
| AddSavings.ParseMoneyWhole | app/admin/tambah-simpanan/components/tambah-simpanan.js:16-28 | a whole number typed plainly is read as itself |
| AddSavings.ParseMoneyDecimalComma | app/admin/tambah-simpanan/components/tambah-simpanan.js:19-24 | an id-ID amount with a two-digit decimal comma ("1.000.000,50") is read as its value |
| AddSavings.ParseMoneyPointed | app/admin/tambah-simpanan/components/tambah-simpanan.js:26-27 | digits, a point and digits are read as the whole part plus the fraction |
| AddSavings.ParseMoneyDecimalPoint | app/admin/tambah-simpanan/components/tambah-simpanan.js:26-27 | "1500.50" style amounts are read as their value |
| AddSavings.ParseMoneyOneGroupAsWritten | app/admin/tambah-simpanan/components/tambah-simpanan.js:26-27 | as written, "50.000" is read as 50: the thousands dot is taken for a decimal point |
| AddSavings.ParseMoneyTwoGroupsAsWritten | app/admin/tambah-simpanan/components/tambah-simpanan.js:26-27 | as written, an amount of a million or more written with thousands dots reads as 0 |
| AddSavings.ParseMoneyGrouped | app/admin/tambah-simpanan/components/tambah-simpanan.js:16-28 | the corrected reading agrees with the original on every text that is empty, has a comma, or is not thousands-grouped |
| AddSavings.ParseMoneyGroupedWhole | app/admin/tambah-simpanan/components/tambah-simpanan.js:16-28 | with grouped thousands recognised, every whole amount in id-ID form is read as itself |
| AddSavings.Year | app/admin/tambah-simpanan/components/tambah-simpanan.js:50-53 | none exactly for no date; otherwise the value of its four year digits, below 10000 |
| AddSavings.DividendQuery | app/admin/tambah-simpanan/components/tambah-simpanan.js:55-65 | a preview request exactly when a member is chosen and the date's year is not 0, carrying the year and the member |
| AddSavings.PlanPosts | app/admin/tambah-simpanan/components/tambah-simpanan.js:90-112 | one `wajib` post exactly when its amount is positive and one `pokok` post likewise, nothing else, the `wajib` one first |
| AddSavings.PlanSave | app/admin/tambah-simpanan/components/tambah-simpanan.js:76-112 | no member, then no date, then no positive amount refuse with their messages in that order; otherwise one post per positive amount, all for the member and date, with `wajib` first when it is positive; amounts are read by the corrected `ParseMoneyGrouped` (see Findings) |
| AddSavings.SaveFeedback | app/admin/tambah-simpanan/components/tambah-simpanan.js:114-124 | success alerts the fixed text and goes to "/admin"; failure alerts the first server error or message and stays |

## Left out

- Rendering, styling, `<dialog>` handling, `alert`, navigation and the Blob download: a screen's outcome is modelled as the values it would show, alert or hand to the browser (`ExportOutcome`, messages, destination paths).
- Request races: the `alive` flags, effects re-running while a request is in flight, and `Promise.allSettled` ordering are modelled as one settled answer per request, in request order.
- `new Date(...)`, `toISOString` and `toLocaleDateString`: a timestamp carries the reading the date library gives it (`ListFilter.Timestamp`), so time zones and the parsing rules are not modelled.
- Number formatting (`formatIDR`, `formatRupiah`, `toLocaleString`, `String(number)` in exports): it is a parameter `show` or is left out, because it is engine and locale code.
- Floating point: amounts are exact reals, so rounding to doubles is not modelled. `Number(...)` is modelled only on texts of digits, ".", "-" (and "," for the deposit form), and `NonFinite` stands for NaN.
- Js.NumberOf: a text whose value reaches about 1.8 × 10^308 (a whole part of 309 digits or more) is ±Infinity in the source and a finite real in the model; the "reads as itself" of Js.NumberOfNat holds in the source only below that bound.
- AdminSavings.ValidateEdit: accepts an amount of 309 or more digits that overflows, which the source refuses with "Nominal tidak valid (minimal 1)." because `Number.isFinite` is false for it.
- AddSavings.ParseMoney: reads an amount of 309 or more digits that overflows as its exact value, where the source keeps Infinity (`Infinity || 0`) and the POST body then carries `null`; the same holds for AddSavings.ParseMoneyGrouped and AddSavings.PlanSave.
- The `users` list fetches of the admin savings table and the deposit form: they only fill a drop-down.
- The dividend preview text of the deposit form (`setDividend(formatIDR(...))`): only the request it makes is modelled (`AddSavings.DividendQuery`).
- The loan form's `/me` lookup of the member's name, and the header's `/me` race with log-out.
- Implicit form submission by the Enter key: each form's submit handler is modelled directly.
- MyLoans.MyLoansTable.SubmitProof: requires a chosen file and no upload in flight, which the disabled "Kirim Bukti" button guarantees (a form whose submit button is disabled is not submitted by Enter either); the handler itself only checks for a selected loan, and MyLoans.MyLoansTable.PressSend models the button's refusal.
- The proof preview of the settlements table (`openProof` / `closeProof`, blob URLs).
- The employee savings chart's own fetch, filters and paging: they repeat `MySavings.MySavingsTable` line for line and are not rendered on that screen; the chart panel is modelled from the fetched rows.
- Js.Take: `slice(0, n)` counts UTF-16 code units and the model counts characters, so the two differ on texts with a character above U+FFFF among the first n; ListFilter.MonthKey, Dividends.MonthLabel, Dividends.YearOf, AdminSavings.NeededKey, MySavings.NeededYear and AddSavings.Year read month texts through it. Js.FirstOf and Js.FirstErrorMessage likewise take `t[0]` as a whole character where the source may take half of a surrogate pair. Field lengths in the sign-up checks are counted in code units (`Js.Utf16Length`).
- Js.FirstErrorMessage: takes the first error entry in the order the server sent it; `Object.keys` lists integer-like keys first, in ascending order, which the model does not reorder (the servers' field names are not integer-like).
- SignIn.StoredText: a missing token is stored as "undefined"; a token that is JSON `null` is stored as "null" by the source, which the model, reading null and undefined alike, does not tell apart.
- Sort order: `Array.prototype.sort` compares UTF-16 code units, and the model compares `char` values. The two agree on the month labels the chart sorts, all of which are in the Basic Multilingual Plane.
- A page number that is NaN (`Number` of a non-numeric `current_page`), and a `data` field that is neither an array nor absent: the JSON is taken to follow the API's declared shape.
- `localStorage` and `JSON.parse`: storage is a `map<string, string>`, and quota and parse errors are not modelled.
- A loan or savings id is an `int` (or absent); a null id printed into a path as "undefined" is modelled only where the path is built.
- AdminSavings.JobFor: models `key.split("-")` faithfully, but the lemma `AdminSavings.JobForKey` is stated only for positive ids, because a negative id would put a second "-" in the key.
- Loans.LoanTable.Next: requires a known `last_page`, though the source also enables the button when `last_page` is missing (the comparison with `undefined` is false), and the click then sets the page to `Math.min(undefined, p + 1)`, which is NaN; the button uses `page` rather than `meta.current_page`, as the source does.
- Loans.LoanTable.Prev: requires a truthy `prev_page_url` and `page > 1`, as the disabled test does; the `Math.max(1, p - 1)` clamp is then never needed.
- Settlements.SettlementTable.Next: requires a known `last_page`. With a classic answer that has `current_page` but no `last_page`, the source leaves "»" enabled, and the click sets the page to `Math.min(undefined, p + 1)`, which is NaN; that click is not modelled.
- Pagination.CollectAllPages: the do-while loop ends on the server's answers only, so the model gives it a finite list of answers and reports `Unfinished` when they run out, instead of looping for ever.
- SavingsChart.SumFor: states only the empty case in its own contract; its meaning is stated by `SavingsChart.TotalsMeaning` and `SavingsChart.ChartTotals`.
- AddSavings.ParseMoney: its own contract states only the empty case; the readings of each kind of text are the lemmas that follow it.
- Dividends.YearOf: states only the length bound; which texts give a four-digit year is stated by `MySavings.NeededYear` and `AdminSavings.NeededKey`.

## Findings

| source | as written | input that shows it | evidently intended | confidence | as-written member | corrected member |
|---|---|---|---|---|---|---|
| app/admin/data-pinjaman/components/table-pinjaman.js:297-302 | `resetFilters` clears the filters and then calls `fetchLoans(1)` from the same render, so that request still carries the old filters; when the page is already 1 no second fetch follows | on page 1 with status filter "approved", press "Reset": the only request is `GET /loans?page=1&status=approved`, so the table still shows only approved loans under empty filters | a reset fetches page 1 with no filter (`Loans.IntendedResetRequests`, used by `Loans.LoanTable.ResetFilters`) | not executed | Loans.ResetOnFirstPageKeepsOldFilter | Loans.IntendedResetClearsFilters |
| app/admin/tambah-simpanan/components/tambah-simpanan.js:16-28 | without a decimal comma the commas are dropped and `Number` reads the rest, so the id-ID thousands dot is read as a decimal point | "50.000" is saved as 50; "1.000.000" reads as NaN and becomes 0, so that amount is not posted | thousands separators are dropped, as the decimal-comma branch already does (`AddSavings.ParseMoneyGrouped`, used by `AddSavings.PlanSave`) | not executed | AddSavings.ParseMoneyOneGroupAsWritten | AddSavings.ParseMoneyGroupedWhole |
