# Lead dashboard core, modelled in Dafny

This project models the data-handling core of a small lead-management dashboard.
Users own campaigns, and campaigns hold leads. A lead has a status (Pending, Contacted,
Responded, Converted) and a history of interaction events.

The model covers these parts:

- **The leads endpoint** (`leads_query.dfy`, `leads_store.dfy`).
  - `GET` reads its filters from the query string and left-joins leads with their
    campaign's name. It filters by an `ILIKE` search over four columns, an exact status
    and an exact campaign name. It orders by update time, newest first, cuts out one
    page, and counts the full result for the pagination figures.
  - `POST` validates the body, applies the column defaults and inserts a row.
  - `PUT` validates the body, writes the supplied keys to the row with the given id,
    stamps the last-contact date when the status sent is "Contacted", and always
    stamps the update time.
  - The table the POST and PUT handlers change is a class whose `leads` field these
    methods update.
- **The database schema** (`schema.dfy`): the two enums, the table rows, the column
  defaults, the foreign keys with their cascading deletes, and the primary and unique
  keys.
- **The `LIKE` matcher** (`sql_like.dfy`): Postgres `ILIKE` with `%`, `_` and the
  backslash escape, and ASCII case folding.
- **JavaScript number handling** (`js_numbers.dfy`): `Number#toString` and `parseInt`
  without a radix (decimal, or hexadecimal after `0x`), on integers.
- **`URLSearchParams`** (`search_params.dfy`): `get`, `set` and `toString`.
- **The lead detail sheet** (`lead_detail.dfy`):
  - the history panel, which shows the first five entries;
  - the Update button's disabled condition;
  - the two handlers. The status change sends two PUTs in sequence. The contact attempt
    sends one.
- **The list hook** (`use_leads.dfy`): `fetchLeads` turns a filter object into a query
  string, and the handler reads that query string back.
- **The authentication UI** (`auth_outcome.dfy`, `register_form.dfy`, `login_form.dfy`,
  `auth_dialog.dfy`):
  - the two forms' guard chains and their `error`/`loading` transitions;
  - the dialog's open flag and its three views.

  The outcome of the sign-in or sign-up call is an input.

Three behaviours of the code are easy to misread, and the model follows the code in each:

- **Search.** The search text goes into the `ILIKE` pattern unescaped, which makes `%` and `_`
  in it wildcards. So the search is a case-insensitive substring match only for search
  text without `%`, `_` and `\`. `SqlLike.ContainsPattern` and
  `LeadsQuery.SearchIsSubstring` are stated under that requirement.
- **Contacting a lead.** A PUT whose status is "Contacted" stamps `lastContactDate`,
  whether or not it also carries an interaction history. So `handleContact` does set the
  timestamp, as `LeadDetail.ContactEffect` proves.
- **Campaign name.** A row's campaign name comes from a left join, so it is null when no
  campaign has the lead's `campaign_id`. The client-side `Lead` type declares it as a
  plain string.

Timestamps are integers supplied by the caller. `now` is the instant a row is stamped
with: the database's `defaultNow()` for POST, the server's `new Date()` for PUT. `date`
is the browser's clock. A failed statement leaves the table unchanged.

## Model

| member | source | states |
|---|---|---|
| SearchParams.Get | src/app/api/leads/route.ts:10-14 | `searchParams.get` is `None` exactly when no pair has that name |
| SearchParams.GetFirstPair | src/app/api/leads/route.ts:10-14 | a found value is the value of the first pair with that name: some pair carries it and no earlier pair has the name |
| SearchParams.Set | src/hooks/useLeads.ts:44-48 | after `params.set(k, v)`, `get(k)` is `v`, every other name reads as before, and a new name is appended at the end |
| SearchParams.Serialize | src/hooks/useLeads.ts:50 | the query string is empty exactly when there are no pairs |
| JsNumbers.ParseInt | src/app/api/leads/route.ts:13-14 | a negative result comes only from a leading minus sign; a non-empty string of decimal digits always parses to a non-negative number |
| JsNumbers.ToStringShape | src/hooks/useLeads.ts:47-48 | `toString` writes a minus sign exactly for negative numbers, then decimal digits with no leading zero (a lone `0` for zero) |
| JsNumbers.ParseIntOfToString | src/hooks/useLeads.ts:47-48 | `parseInt(n.toString())` gives back `n` for every safe integer, negative ones included |
| JsNumbers.ParseIntStopsAtNonDigit | src/app/api/leads/route.ts:13-14 | a number followed by a non-digit reads as that number (`"2.5"` as 2), except `0` followed by `x` or `X`, which starts a hexadecimal literal |
| JsNumbers.ParseIntExamples | src/app/api/leads/route.ts:13-14 | without a radix `"0x10"` reads as 16 and `"-0x2"` as -2, `"2.5"` as 2, and `"0x"`, `"abc"` and `""` as NaN |
| JsNumbers.DigitPrefix | src/app/api/leads/route.ts:13-14 | `parseInt` reads the longest run of leading digits of the radix: a prefix of the input made of digits, followed by a non-digit or the end |
| SqlLike.ContainsPattern | src/app/api/leads/route.ts:23-26 | for search text without wildcards or backslashes, `t ILIKE '%s%'` holds exactly when the case-folded `s` occurs in the case-folded `t` |
| SqlLike.MatchAtIsOccurrence | src/app/api/leads/route.ts:23-26 | the literal characters of the pattern followed by `%` match a suffix of the text exactly when the folded search text occurs at that position |
| SqlLike.ILikeWithoutWildcards | src/app/api/leads/route.ts:23-26 | for a pattern without `%`, `_` or `\`, `ILIKE` is equality up to ASCII case |
| SqlLike.LiteralsMatch | src/app/api/leads/route.ts:23-26 | a pattern of literal characters only matches exactly the texts equal to it up to case |
| SqlLike.PatternTokens | src/app/api/leads/route.ts:23 | the pattern `%s%` for wildcard-free `s` reads as a leading run, the characters of `s`, and a trailing run |
| Schema.ParseLeadStatus | src/lib/schema.ts:26-31 | a text value is a `lead_status` exactly when it is one of the four labels, and it parses to the status with that label |
| Schema.ParseCampaignStatus | src/lib/schema.ts:18-24 | a text value is a `campaign_status` exactly when it is one of the five labels, and it parses to the status with that label |
| Schema.NewCampaignKeepsIntegrity | src/lib/schema.ts:96-110 | inserting a campaign of an existing user with a fresh id keeps every foreign key valid and no two rows of a table sharing a primary or unique key (ids, user emails, session tokens, verification ids); the row defaults to Draft with zero lead counters |
| Schema.DeleteCampaign | src/lib/schema.ts:118-120 | deleting a campaign removes it and exactly the leads that reference it (cascade), and nothing else; the remaining rows keep their order |
| Schema.DeleteCampaignKeepsIntegrity | src/lib/schema.ts:113-126 | after the cascade every lead still references an existing campaign, and no two rows of any table share a primary or unique key |
| Schema.DeleteUser | src/lib/schema.ts:57-59 | deleting a user removes them and exactly their sessions, accounts, campaigns and the leads of those campaigns; verifications are untouched; the remaining rows keep their order |
| Schema.DistinctSubsequence | src/lib/schema.ts:113-126 | removing rows while keeping the order of the rest never makes two rows share a key |
| Schema.DeleteUserKeepsIntegrity | src/lib/schema.ts:38-126 | after the cascade every session, account, campaign and lead references an existing row, and no two rows of any table share a primary or unique key |
| Schema.Keep | src/app/api/leads/route.ts:58-59 | the filtered rows are exactly the rows that satisfy the condition, in their original order (an increasing map of positions), each as often as in the input, and there are no more of them than before |
| LeadsQuery.ParseListParams | src/app/api/leads/route.ts:9-14 | search, status and campaign read as their value or ""; an absent or empty page reads as 1 and limit as 50, each on its own; the result is NaN (`None`) exactly when `parseInt` (with `0x` read as hexadecimal) finds no digits in page or limit |
| LeadsQuery.CampaignName | src/app/api/leads/route.ts:52-55 | the joined name is null exactly when no campaign has the lead's campaign id, and otherwise is the name of such a campaign |
| LeadsQuery.Joined | src/app/api/leads/route.ts:40-55 | the left join yields exactly one row per lead, in table order, carrying that lead and the name of its campaign, or null |
| LeadsQuery.CountMatchingIsSize | src/app/api/leads/route.ts:68-80 | the count query's length equals the number of joined rows that pass the filter |
| LeadsQuery.InsertByUpdate | src/app/api/leads/route.ts:63 | inserting a row into the ordered result adds exactly that row |
| LeadsQuery.InsertKeepsNewestFirst | src/app/api/leads/route.ts:63 | inserting into a newest-first sequence keeps it newest first |
| LeadsQuery.OrderByUpdateDesc | src/app/api/leads/route.ts:63 | `ORDER BY updated_at DESC` yields a permutation of the rows sorted newest first |
| LeadsQuery.Results | src/app/api/leads/route.ts:58-63 | the ordered result is newest first, holds the joined rows that satisfy every non-empty filter, each exactly as often as it is joined, and has as many rows as the count query |
| LeadsQuery.Window | src/app/api/leads/route.ts:64-65 | `LIMIT/OFFSET` keeps at most `limit` rows, those that follow the first `offset` |
| LeadsQuery.WindowKeepsNewestFirst | src/app/api/leads/route.ts:62-65 | a page of a newest-first result is newest first |
| LeadsQuery.WindowPage | src/app/api/leads/route.ts:62-65 | a page holds `min(limit, max(0, n - offset))` rows, equal to the result's rows from `offset` on, newest first |
| LeadsQuery.CeilDiv | src/app/api/leads/route.ts:89 | `Math.ceil(total / limit)` is the least number of pages of `limit` rows that holds `total` rows |
| LeadsQuery.Paginate | src/app/api/leads/route.ts:85-92 | `totalPages` is the ceiling of total/limit; `hasNextPage` holds exactly when `page * limit < total`; `hasPrevPage` holds exactly when `page > 1` |
| LeadsQuery.Offset | src/app/api/leads/route.ts:15 | the offset is `(page - 1) * limit` and is non-negative for positive page and limit |
| LeadsQuery.Query | src/app/api/leads/route.ts:31-33 | the handler fails with "Failed to fetch leads" exactly when a non-empty status filter is not a status label |
| LeadsQuery.QueryRowsMatch | src/app/api/leads/route.ts:20-37 | every returned row is a lead of the table with its own campaign's name, and satisfies each non-empty filter |
| LeadsQuery.QueryPage | src/app/api/leads/route.ts:62-65 | the page has at most `limit` rows, is the full result's rows from `(page-1)*limit` on, and is newest first |
| LeadsQuery.QueryTotal | src/app/api/leads/route.ts:67-91 | `total` is the size of the full filtered result, whatever the page and limit; the other figures follow from it |
| LeadsQuery.LeftJoinKeepsOrphans | src/app/api/leads/route.ts:54-55 | with no search or campaign filter, a lead whose campaign is missing is still listed, with a null campaign name |
| LeadsQuery.SearchIsSubstring | src/app/api/leads/route.ts:20-28 | for wildcard-free search text, a row is a search hit exactly when the text occurs, case-insensitively, in its name or in its non-null email, company or campaign name |
| LeadsQuery.SecondPageOfHundredTwenty | src/app/api/leads/route.ts:85-92 | page 2 of 120 results at 50 per page returns rows 50 to 99, with 3 pages and both a next and a previous page |
| LeadsStore.CreateResponse | src/app/api/leads/route.ts:103-138 | 400 exactly when the name or campaign id is missing or falsy; 500 when the row cannot be stored; never 404; otherwise the row with status Pending by default, an empty history, no contact date and both timestamps `now` |
| LeadsStore.LeadTable.Create | src/app/api/leads/route.ts:115-125 | the insert appends the new row and advances the serial only on success, keeping ids unique and every campaign reference valid |
| LeadsStore.FindLead | src/app/api/leads/route.ts:165 | the lookup by id is `None` exactly when no row has that id, and otherwise is a row with that id |
| LeadsStore.UpdateResponse | src/app/api/leads/route.ts:140-186 | 400 exactly when the id is missing or zero; 404 exactly when no row has it (and the status is a label); success exactly when the body is writable and the row exists |
| LeadsStore.PatchRow | src/app/api/leads/route.ts:152-166 | the written row keeps its id, campaign and creation time and has `updatedAt` = `now`; with no status and no history sent, status, history and contact date stay; a status sent becomes the row's status |
| LeadsStore.Patched | src/app/api/leads/route.ts:152-166 | the update keeps the table's length and every row's id and campaign id |
| LeadsStore.AfterUpdate | src/app/api/leads/route.ts:152-173 | the table after a PUT keeps its length and every row's id and campaign id, is unchanged unless the PUT succeeds, and keeps ids unique |
| LeadsStore.UpdateRules | src/app/api/leads/route.ts:152-166 | after a successful PUT, omitted keys keep their columns and null clears email and company. `lastContactDate` becomes `now` exactly when the status sent is "Contacted". `updatedAt` is `now`. The id, campaign and creation time never change, and other rows are untouched |
| LeadsStore.UpdateIdempotent | src/app/api/leads/route.ts:152-166 | repeating the same PUT at the same instant changes nothing more |
| LeadsStore.LeadTable.constructor | src/lib/schema.ts:113-126 | an empty leads table over the given campaigns whose serial starts at 1 |
| LeadsStore.LeadTable.Update | src/app/api/leads/route.ts:140-186 | the method answers as `UpdateResponse` and leaves the table as `AfterUpdate`, keeping ids unique and references valid |
| LeadDetail.StatusUpdatePlan | src/components/lead/lead-detail-sheet.tsx:47-72 | no request when the selection is empty or the current status; otherwise a status-only PUT followed by a history-only PUT for the same lead |
| LeadDetail.StatusChangeAppendsOne | src/components/lead/lead-detail-sheet.tsx:56-65 | the history sent is the old one plus one "Status Update" entry naming the old and new status |
| LeadDetail.UpdateButtonMatchesHandler | src/components/lead/lead-detail-sheet.tsx:247-251 | with no request in flight the Update button is enabled exactly when the handler would send something; while one is in flight it is disabled |
| LeadDetail.PanelAfterAppend | src/components/lead/lead-detail-sheet.tsx:181-184 | an entry appended to a history shorter than five is shown; once the history has five entries, an appended entry never changes the panel |
| LeadDetail.StatusUpdateEffect | src/components/lead/lead-detail-sheet.tsx:47-72 | when both PUTs succeed, the lead has the new status, the sheet's history plus the change entry, a contact date stamped exactly when the new status is Contacted, and the second PUT's time; other rows are unchanged |
| LeadDetail.ContactEffect | src/components/lead/lead-detail-sheet.tsx:78-98 | contacting an existing lead sets status Contacted, stamps `lastContactDate` with `now`, and appends one "Contact Attempt" entry |
| LeadDetail.PatchAt | src/app/api/leads/route.ts:152-166 | a writable PUT naming row `k`'s id returns that row patched and leaves all other rows alone |
| LeadDetail.DetailSheet.constructor | src/components/lead/lead-detail-sheet.tsx:42 | the sheet opens on its lead with no status selected |
| LeadDetail.DetailSheet.Choose | src/components/lead/lead-detail-sheet.tsx:233-241 | the drop-down sets the selection to a status label |
| LeadDetail.DetailSheet.HandleStatusUpdate | src/components/lead/lead-detail-sheet.tsx:47-76 | the requests sent are a prefix of the plan; the second is sent exactly when the first succeeds; the table is as after those PUTs; the selection clears only when the second succeeds |
| LeadDetail.DetailSheet.HandleContact | src/components/lead/lead-detail-sheet.tsx:78-98 | one PUT with status Contacted and the extended history, and the table is as after it |
| UseLeads.Wanted | src/hooks/useLeads.ts:44-48 | a wanted value is never empty and is under one of the five keys (that exactly the truthy filters are sent is `UseLeads.QueryLookups`) |
| UseLeads.GetQueryFirst | src/hooks/useLeads.ts:44-48 | looking up a key in the query built so far gives its filter when that key has been handled, and nothing otherwise |
| UseLeads.Step | src/hooks/useLeads.ts:44-48 | each `params.set` appends its key, since the key is not present yet |
| UseLeads.FetchLeadsParams | src/hooks/useLeads.ts:42-48 | the parameters built are the truthy filters, one pair per key, in the order search, status, campaign, page, limit |
| UseLeads.NoFiltersEmptyQuery | src/hooks/useLeads.ts:39-50 | with no filters the query string is empty |
| UseLeads.QueryLookups | src/hooks/useLeads.ts:44-48 | each key of the built query holds its filter's text, or is absent when the filter is falsy |
| UseLeads.NumberRoundTrip | src/hooks/useLeads.ts:47-48 | a page or limit sent by the hook (a safe integer) is read back unchanged by the handler, and an unsent one as the default |
| UseLeads.ParseWanted | src/app/api/leads/route.ts:9-14 | a query string carrying the wanted values parses to the hook's filters with the handler's defaults |
| UseLeads.FetchParamsRoundTrip | src/hooks/useLeads.ts:39-50 | for safe-integer page and limit, the handler reads the hook's query string back as the same filters: "" for unset strings, 1 and 50 for unset page and limit |
| AuthOutcome.ErrorAfter | src/components/auth/login-form.tsx:39-46 | after an attempt the error is empty exactly on success; otherwise the call's non-empty message, or the form's fallback |
| RegisterForm.ValidationError | src/components/auth/register-form.tsx:27-35 | "Please fill in all fields" exactly when a field is empty; otherwise "Password must be at least 8 characters long" exactly when the password is shorter than 8; otherwise no error |
| RegisterForm.Form.constructor | src/components/auth/register-form.tsx:17-23 | all fields empty, password hidden, not loading, no error |
| RegisterForm.Form.SetFirstName | src/components/auth/register-form.tsx:98 | the input sets the first name |
| RegisterForm.Form.SetLastName | src/components/auth/register-form.tsx:111 | the input sets the last name |
| RegisterForm.Form.SetEmail | src/components/auth/register-form.tsx:126 | the input sets the email |
| RegisterForm.Form.SetPassword | src/components/auth/register-form.tsx:141 | the input sets the password |
| RegisterForm.Form.TogglePassword | src/components/auth/register-form.tsx:149 | the eye button flips password visibility |
| RegisterForm.Form.BeginSubmit | src/components/auth/register-form.tsx:25-45 | a failing guard sets its message and calls nothing; passing sets loading, clears the error and calls sign-up with "first last" |
| RegisterForm.Form.FinishSubmit | src/components/auth/register-form.tsx:47-57 | after the call loading is off; the error is the outcome's message or fallback; `onSuccess` is called exactly on success |
| RegisterForm.Form.HandleSubmit | src/components/auth/register-form.tsx:25-58 | the whole submission: a failing guard sets its message and changes nothing else; a passing one calls sign-up once and ends not loading, with the outcome's error and `onSuccess` exactly on success |
| LoginForm.Form.constructor | src/components/auth/login-form.tsx:17-21 | both fields empty, password hidden, not loading, no error |
| LoginForm.Form.SetEmail | src/components/auth/login-form.tsx:87 | the input sets the email |
| LoginForm.Form.SetPassword | src/components/auth/login-form.tsx:102 | the input sets the password |
| LoginForm.Form.TogglePassword | src/components/auth/login-form.tsx:109 | the eye button flips password visibility |
| LoginForm.Form.BeginSubmit | src/components/auth/login-form.tsx:23-37 | an empty field sets "Please fill in all fields" and calls nothing; otherwise loading on, error cleared, sign-in called |
| LoginForm.Form.FinishSubmit | src/components/auth/login-form.tsx:39-49 | after the call loading is off; the error is the outcome's message, "Login failed" or "Login failed. Please check your credentials."; `onSuccess` exactly on success |
| LoginForm.Form.HandleSubmit | src/components/auth/login-form.tsx:23-50 | the whole submission, with the same guard, call and outcome rules |
| AuthDialog.Target | src/components/auth/auth-dialog.tsx:41-58 | back leads to the main view and only back does; login and register lead to their forms |
| AuthDialog.OfferedClicksMove | src/components/auth/auth-dialog.tsx:41-58 | every button a view offers leads to a different view |
| AuthDialog.Route | src/components/auth/auth-dialog.tsx:39-61 | every view is reachable from every other with one offered click |
| AuthDialog.Dialog.constructor | src/components/auth/auth-dialog.tsx:19-22 | initially open as `defaultOpen` says, on the main view, with no notifications |
| AuthDialog.Dialog.Press | src/components/auth/auth-dialog.tsx:41-58 | an offered button moves to its target view |
| AuthDialog.Dialog.HandleOpenChange | src/components/auth/auth-dialog.tsx:25-28 | sets the open flag, notifies the parent if it listens, and leaves the view alone |
| AuthDialog.Dialog.HandleAuthSuccess | src/components/auth/auth-dialog.tsx:29-32 | closes the dialog (nothing is rendered), notifies `false` if the parent listens, and refreshes once, whether or not the dialog was open |

## Left out

- `parseInt` results of NaN (a page or limit that is not a number) make `ParseListParams` return `None`; the handler's behaviour on them is not followed further.
- LeadsQuery.Query: requires a positive page and limit. A page of 0 or less gives a negative `OFFSET`, which Postgres rejects, and a limit of 0, although a valid `LIMIT`, makes `Math.ceil(total / 0)` Infinity (or NaN for no rows), which JSON serialises as `null`. Neither path is modelled.
- JsNumbers.ParseIntOfToString: holds for safe integers only. Beyond 2^53 `toString` of a JavaScript number is not exact, and from 10^21 on it uses exponent form, which `parseInt` cuts at the `e`. The round trips in `UseLeads` carry the same bound.
- UseLeads.FetchParamsRoundTrip: page and limit are integers in the model. A fractional filter such as 2.5 is sent as `"2.5"` and read back as 2 (`JsNumbers.ParseIntStopsAtNonDigit`), which the integer-typed filters cannot express.
- LeadsStore.PatchRow: one instant `now` stamps both `lastContactDate` and `updatedAt`, whereas the PUT reads the server clock twice (src/app/api/leads/route.ts:162-163), so the two may differ by the time between the reads.
- JsNumbers.ParseInt: leading whitespace, which `parseInt` skips, is not modelled.
- JsNumbers.ToStringShape: it and `IntToString` write every integer in plain decimal. JavaScript's `toString` agrees only up to 10^21, where it switches to exponent form, and is exact only for safe integers; the round trips that use it require safe integers.
- Percent-encoding in `URLSearchParams.toString` and in the URL parser is not modelled. Names and values go through as they are.
- JSON serialisation of the interaction history is not modelled. The history is a sequence of events. An absent column is `None`, and a falsy history in a PUT is treated as not sent.
- Timestamps are integers supplied as parameters, not clock reads. The columns that are nullable but always written by these handlers are modelled as plain integers.
- LeadsQuery.OrderByUpdateDesc: the order of rows with equal update times is one particular order (insertion). Postgres leaves that order unspecified.
- `responseRate` (a decimal column) is not modelled, because floating-point and decimal arithmetic are out of scope.
- The authentication service (sign-in, sign-up, OAuth, sessions, password hashing) and `router.refresh` are foreign code. Their outcome is an input, and the refresh is a counter.
- Concurrency between requests, React Query caching and invalidation, and the mutation's `isPending` flag are not modelled. The flag is a parameter of `UpdateDisabled`.
- A failed insert consuming a value of the serial sequence is not modelled. `LeadTable.Create` advances `nextId` only on success.
- Case folding covers ASCII letters only. Unicode case rules are not modelled.
- The sheet renders nothing without a lead (`if (!lead) return null`). `DetailSheet` always holds a lead.
- The password-length check counts characters of `seq<char>`, not UTF-16 code units.
