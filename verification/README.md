# Finverse in Dafny

Finverse is a personal-finance service. This project models the parts of its API that compute
with money, dates, files and credentials, and proves what they keep over all inputs and all runs.
Each module follows one component of the source:

- `Cbor`, `CborGrammar`: the WebAuthn CBOR decoder (section 3 of RFC 8949 cut down), and the grammar of the encodings it accepts.
- `Throttler`: the fixed-window rate limiter over a shared table of buckets.
- `Calendar`, `Schedule`, `Trend`, `Forecast`: civil dates, recurring obligations, the gap-filled trend series, and the cash-flow forecast with the purchase simulator.
- `Csv`: the two-pass CSV reader (compare section 2 of RFC 4180) and the two printers that feed it.
- `Transfers`, `Split`, `Fewest`: pairing internal transfers, shared expenses with debt settlement, and how many payments settling takes.
- `Sessions`: refresh-token families under concurrent requests.
- `Base32`: the secrets of one-time passwords (section 6 of RFC 4648, unpadded) on int32 accumulators.
- `Statements`, `StatementLaws`, `StatementRuns`, `StatementRevivals`: the leased job store of statement imports, what its operations do field by field, its runs with `finalize` in two halves, and what that makes possible.
- `Ledger`, `Paging`, `Review`: the transaction store, its keyset pagination, and the import review.
- `Sorting`, `Common`: ECMAScript's stable sort, and what several modules share.

Code that loops or updates state is a method proved equal to a function of its inputs or of the old
state; the laws are lemmas about those functions. Stores are classes whose fields are the source's
maps and lists, and runs are sequences of states of the same functions.

Where code and documentation differ, the code is followed. `daysInMonth` is wrong in February of the
year 0. The comment on `suggestSettlements` promises the fewest payments; the greedy loop can take
more, though never twice as many, and `Fewest` says exactly when it does not. An undone import takes
the rows it found in the ledger with it. A statement import that is deleted while its `finalize`
awaits the ledger comes back, and can then stand beside a second upload of the same file. The next
sync erases the user's note on a row whose category the user did not choose. The throttler lets more
than twice its limit through a window when blocks are too short. An apostrophe in front of an
exported formula cannot be told from one that was there. `csvEscape` leaves a carriage return
unquoted, which the reader takes for a line end. The ledger's cursor is exact only where string
order and collation agree. The import review compares rows up to three days apart, but its threshold
is out of reach beyond one day; that they are of one account, as its comment says, is up to the
caller, who passes the rows of one account. A text head with additional information 31 makes the
CBOR decoder step back one byte.

`dafny verify dfyconfig.toml` checks the project.

## Model

| member | source | states |
|---|---|---|
| Cbor.DecodeAt | apps/api/src/infra/webauthn/cbor.ts:40-131 | the item budget is the measure: a decoded value uses at least one item of at most 1024, nests at most 16 deep, and leaves the offset inside the input |
| Cbor.Decoder.Decode | apps/api/src/infra/webauthn/cbor.ts:40-131 | the recursive decoder over the shared offset and item counter computes `DecodeAt`, on success and on error |
| Cbor.Decoder.DecodeIndefiniteMap | apps/api/src/infra/webauthn/cbor.ts:101-110 | the loop up to the break byte sets the keys and values that `DecodeToBreak` lists, in order |
| Cbor.DecodeCbor | apps/api/src/infra/webauthn/cbor.ts:25-33 | the size check, one value at depth 0 and the end-of-input check, as `Accepted` says |
| CborGrammar.AcceptsExactlyTheGrammar | apps/api/src/infra/webauthn/cbor.ts:25-132 | an input decodes to `v` if and only if it is at most 24 KiB and some well-formed item within the item and depth budgets renders to exactly these bytes and means `v` |
| CborGrammar.DecodeEncode | apps/api/src/infra/webauthn/cbor.ts:25-132 | decoding the shortest encoding of any supported value, with anything before and after it, returns the value and stops at the end of the encoding |
| CborGrammar.DecodeRendered | apps/api/src/infra/webauthn/cbor.ts:40-131 | every rendering of a well-formed item, in any argument width, decodes to its meaning and spends exactly its item count |
| CborGrammar.Explain | apps/api/src/infra/webauthn/cbor.ts:40-131 | every value decoded away from a 0x7f head has an item that renders to the bytes read |
| CborGrammar.StuckMany | apps/api/src/infra/webauthn/cbor.ts:65-66 | a text head with additional information 31 gives the offset back: whatever is decoded from there, the offset stays, so only the budget ends the loop |
| CborGrammar.ValueMovesOn | apps/api/src/infra/webauthn/cbor.ts:40-131 | a decoded value never ends before it starts, and it ends where it starts if and only if the byte there is 0x7f |
| Cbor.NearestDouble | apps/api/src/infra/webauthn/cbor.ts:71-77 | an integer argument above 2^53 becomes the nearest number of 53 significant bits, the even one of two as near, as `Number` does |
| CborGrammar.MapOfFlat | apps/api/src/infra/webauthn/cbor.ts:105-115 | setting distinct keys one after the other keeps all of them in order |
| CborGrammar.MapSetAt | apps/api/src/infra/webauthn/cbor.ts:98-119 | setting a primitive key that is there changes its value in place and nothing else |
| CborGrammar.ObjectKeyAdds | apps/api/src/infra/webauthn/cbor.ts:98-119 | a key that is a byte string, an array or a map is always added: two decoded objects are never the same key |
| CborGrammar.MapKeepsLast | apps/api/src/infra/webauthn/cbor.ts:98-119 | an integer, text, boolean or null that comes as a key more than once is in the decoded map once, with the last of its values |
| Throttler.ThrottlerStorage.Increment | apps/api/src/infra/http/postgres-throttler-storage.ts:25-110 | one call changes the row of its own key only, answers from the row before and after, and prunes the table on every thousandth call |
| Throttler.CallDoes | apps/api/src/infra/http/postgres-throttler-storage.ts:60-82 | a call under a block changes nothing; after a block or a window it starts a new window with one hit; otherwise it adds a hit; a block of the given length starts exactly when the hits exceed the limit |
| Throttler.AnswerTells | apps/api/src/infra/http/postgres-throttler-storage.ts:60-95 | the answer gives the hits, the least number of whole seconds until the window ends, whether a block is on, and the least number of seconds until it ends |
| Throttler.PruningTakes | apps/api/src/infra/http/postgres-throttler-storage.ts:98-107 | pruning deletes exactly the rows whose window and block, if any, ended more than 86400000 ms ago |
| Throttler.WindowAdmits | apps/api/src/infra/http/postgres-throttler-storage.ts:60-95 | from one reset to the next at most `limit` calls are admitted |
| Throttler.ResetsApart | apps/api/src/infra/http/postgres-throttler-storage.ts:69-78 | two consecutive resets are at least the shorter of the window and the block apart |
| Throttler.AdmissionBound | apps/api/src/infra/http/postgres-throttler-storage.ts:57-107 | calls less than that span apart include at most `2 * limit` admitted ones |
| Throttler.WindowBound | apps/api/src/infra/http/postgres-throttler-storage.ts:57-107 | when a block lasts at least a window, every half-open interval of the length of a window admits at most `2 * limit` calls, over any non-decreasing clock |
| Throttler.IntervalBound | apps/api/src/infra/http/postgres-throttler-storage.ts:57-107 | whatever the rule, the bound holds for intervals up to the shorter of window and block |
| Throttler.BoundHoldsExactly | apps/api/src/infra/http/postgres-throttler-storage.ts:57-107 | every run of an accepted rule admits at most `2 * limit` calls in every interval of the length of a window if and only if the window or the floor of the limit is 0, or that floor is 1 and two blocks last a window, or it is 2 or more and the block lasts at least a millisecond and at least the window less one millisecond |
| Throttler.ThreeRefills | apps/api/src/infra/http/postgres-throttler-storage.ts:69-78 | whenever two blocks are shorter than a window: filling it, waiting out the block and filling it twice more admits `3 * limit` calls in one window |
| Throttler.LateFill | apps/api/src/infra/http/postgres-throttler-storage.ts:69-78 | for a limit of 2 or more and a block at least two milliseconds shorter than the window: one early hit, the rest at the end of the window and two refills put `3 * limit - 1` calls into one window |
| Throttler.RetentionInvisible | apps/api/src/infra/http/postgres-throttler-storage.ts:98-107 | deleting long-expired rows, at whatever moments, changes no answer |
| Throttler.AnswersOfOneKey | apps/api/src/infra/http/postgres-throttler-storage.ts:40-96 | calls for other keys and retention never change the answers for a key |
| Schedule.OccursByCadence | apps/api/src/domain/scheduled/schedule.ts:67-104 | occurrence `i` is `7 * i` or `14 * i` days after the start, or lies `i`, `3 * i` or `12 * i` months after it on the day of the start or, if the month is shorter, on its last day |
| Schedule.OccurrencesAdvance | apps/api/src/domain/scheduled/schedule.ts:85-104 | consecutive occurrences increase strictly, by at most 366 days |
| Schedule.UpcomingOccurrences | apps/api/src/domain/scheduled/schedule.ts:113-146 | the loop with its two breaks lists what the filter over the first thousand occurrences lists |
| Schedule.ListedExactly | apps/api/src/domain/scheduled/schedule.ts:113-146 | the list is exactly the occurrences in the window, each once, in increasing order |
| Schedule.UpcomingExactly | apps/api/src/domain/scheduled/schedule.ts:113-146 | an entry is listed if and only if the schedule is not archived and one of its first 1000 occurrences lies from today to `days` later and not past the end; it shows the days until then, and is due if and only if these are at most the reminder days |
| Schedule.NextOccurrence | apps/api/src/domain/scheduled/schedule.ts:149-157 | the least occurrence on or after today, if and only if it has index below 1000, is not past the end and the start is within 366 days |
| Schedule.FirstFromExists | apps/api/src/domain/scheduled/schedule.ts:149-157 | every schedule has a first occurrence on or after any day |
| Schedule.CommittedOutflow | apps/api/src/domain/scheduled/schedule.ts:214-227 | the running total is the sum over the outgoing schedules of amount times occurrences |
| Schedule.OutflowCounts | apps/api/src/domain/scheduled/schedule.ts:214-227 | an unarchived payment counts its amount once for every index below 1000 whose occurrence lies in that window |
| Calendar.DayNumberBijection | apps/api/src/domain/dates.ts:19-32 | dates and day numbers correspond one to one, and the next day has the next number |
| Calendar.Chronological | apps/api/src/domain/dates.ts:50-57 | year-month-day order is day-number order |
| Calendar.IsoOrder | apps/api/src/domain/dates.ts:11-17 | for the years 0 to 9999 the `YYYY-MM-DD` strings compare as the dates do |
| Calendar.StringLtExactly | apps/api/src/infra/in-memory-store.ts:163-168 | `<` on strings: the first difference decides, and a string that begins another is less |
| Calendar.AddDaysInPlace | apps/api/src/domain/dates.ts:28-32 | setting the day of month forward lands exactly that many days later |
| Calendar.AddMonthsInPlace | apps/api/src/domain/dates.ts:34-43 | first of the month, month forward, clamp: the specification `AddMonths` |
| Calendar.AddMonthsLaws | apps/api/src/domain/dates.ts:34-43 | the month moves by exactly the count, the day stays or is the last of its month, and time advances strictly |
| Calendar.DaysInMonthIsLength | apps/api/src/domain/dates.ts:45-47 | `daysInMonth` is the length of the month except, because `Date.UTC` reads the years 0 to 99 as 1900 to 1999, in February of the year 0 |
| Calendar.WeekStartIsMonday | apps/api/src/domain/dates.ts:102-107 | a week starts on a Monday, and two dates share it if and only if the second lies in its seven days |
| Calendar.YearStartIs | apps/api/src/domain/dates.ts:19-32 | a year starts 365 days a year and the leap days before it after the year 0: every fourth year, but of the hundredth ones only every fourth |
| Calendar.TheEpoch | apps/api/src/domain/dates.ts:11-17 | the calendar puts 1 January 1970 on day 719528 and on a Thursday |
| Trend.BuildTrend | apps/api/src/domain/insights/analytics.ts:144-172 | the gap-filling loop and the row loop compute `Series` |
| Trend.Cell | apps/api/src/domain/insights/analytics.ts:123-133 | a date has bucket start `s` if and only if it lies from `s` up to the next bucket |
| Trend.TrendIsFaithful | apps/api/src/domain/insights/analytics.ts:144-172 | one point per bucket from the first to the last of the period, no gap, each adding up exactly the rows of its bucket; no row misses a bucket |
| Trend.TrendReconciles | apps/api/src/domain/insights/analytics.ts:144-172 | summed over the points, income, expenses, refunds and net are the totals of the rows |
| Trend.PointsAreFew | apps/api/src/domain/insights/analytics.ts:116-121 | one point a day for periods up to 62 days, at most 54 points up to 370 days |
| Trend.SeriesSpacing | apps/api/src/domain/insights/analytics.ts:116-133 | periods up to 62 days have a point a day, up to 370 days one a week on Mondays, longer ones one on the first of every month |
| Trend.RowsReported | apps/api/src/domain/insights/analytics.ts:186-194 | the rows of the report are exactly those of the currency, neither pending nor excluded, from the first to the last day, each as often as it is in the ledger |
| Trend.TallyAmounts | apps/api/src/domain/insights/analytics.ts:158-168 | income is what came in under an income category other than the refunds, refunds what came in as such, expenses what went out under an expense category |
| Trend.ComputeAnalytics | apps/api/src/domain/insights/analytics.ts:180-262 | the totals computed from the filtered rows, expenses after sorting, equal the sums over the trend, and net is income + refunds - expenses |
| Csv.ToRecords | apps/api/src/domain/imports/csv-parse.ts:104-135 | the index loop computes `Records` |
| Csv.SplitLine | apps/api/src/domain/imports/csv-parse.ts:67-96 | the index loop computes `Fields` |
| Csv.TwoPassesAgree | apps/api/src/domain/imports/csv-parse.ts:67-135 | for any text and any delimiter, records first and fields second give the grid of one quote automaton |
| Csv.CutExactly | apps/api/src/domain/imports/csv-parse.ts:104-135 | the records are the one way to cut the text at every line break (CR, LF or CR LF) outside quotes and nowhere else, every record being copied exactly |
| Csv.RecordIsPrefix | apps/api/src/domain/imports/csv-parse.ts:104-135 | the first record stands at the start of the text, holds line breaks only inside quotes, and is followed by a break outside quotes or by the end; what is read next starts behind that break |
| Csv.ExportRoundTrip | apps/api/src/domain/exports/transactions-csv.ts:8-12 | reading back quoted, comma-joined rows gives what every cell says, whatever quotes, commas or line breaks it contains |
| Csv.LedgerRoundTrip | apps/api/src/domain/exports/transactions-csv.ts:15-62 | the two passes over an exported ledger give the header and one row per transaction |
| Csv.ColumnsByName | apps/api/src/domain/exports/transactions-csv.ts:15-62 | the row of a transaction has every field in the column of its name |
| Csv.LedgerByName | apps/api/src/domain/exports/transactions-csv.ts:8-62 | reading an exported ledger back, what a transaction has in a column is printed below the name of that column |
| Csv.NoStringOpensAFormula | apps/api/src/domain/exports/transactions-csv.ts:3-12 | no string cell is printed starting with `=`, `+`, `-` or `@`: an apostrophe goes in front of exactly those that would |
| Csv.CellTextCollisions | apps/api/src/domain/exports/transactions-csv.ts:8-12 | two strings print alike if and only if they are equal or one is a formula and the other the same behind an apostrophe |
| Csv.WorksheetRoundTrip | apps/api/src/domain/statement-import/analyze.ts:588-588 | a worksheet survives join and reading if and only if no row is empty, no unquoted cell holds a CR and the last row is not one empty cell |
| Csv.ReadUnsafeRow | apps/api/src/domain/statement-import/analyze.ts:683-685 | the first row read ends at the first CR in a cell that `csvEscape` leaves unquoted: it is the row up to there, and never the row written |
| Transfers.DetectInternalTransfers | apps/api/src/domain/transactions/internal-transfers.ts:79-148 | the loops, with the same-day break, compute the greedy matching `Detected` |
| Transfers.NearestIsNearest | apps/api/src/domain/transactions/internal-transfers.ts:109-132 | the inflow chosen is eligible and free, and none eligible and free is nearer |
| Transfers.MaximalMatching | apps/api/src/domain/transactions/internal-transfers.ts:79-148 | pairs are one to one, opposite in amount, equal in currency, of different accounts and within the window, and no eligible pair is left unpaired on both sides |
| Transfers.EachPairIsBest | apps/api/src/domain/transactions/internal-transfers.ts:79-148 | every pair shows the ids, the positive amount, the currency and the days between its two rows, and joins its outflow with the nearest inflow that no earlier pair uses, of equally near ones the earliest, then the one with the least id |
| Transfers.PairsInOrder | apps/api/src/domain/transactions/internal-transfers.ts:68-71 | the pairs come in the order of date, then id, of their outflows |
| Transfers.AtLeastHalf | apps/api/src/domain/transactions/internal-transfers.ts:79-148 | no set of transfers that uses every transaction at most once has more than twice as many pairs |
| Transfers.HalfIsFound | apps/api/src/domain/transactions/internal-transfers.ts:109-132 | and twice as many there can be: two payments out and two in of which the nearest match leaves one transfer undetected |
| Transfers.OrderIndependent | apps/api/src/domain/transactions/internal-transfers.ts:68-71 | with distinct ids every permutation of the input gives the same pairs |
| Transfers.TransfersCancel | apps/api/src/domain/transactions/internal-transfers.ts:150-160 | the transactions with detected ids add up to zero |
| Sessions.InMemorySessionStore.RotateSession | apps/api/src/infra/auth/in-memory-auth-stores.ts:79-90 | spends a live session and stores its successor in one step, or changes nothing |
| Sessions.InMemorySessionStore.FindByTokenHash | apps/api/src/infra/auth/in-memory-auth-stores.ts:92-97 | finds a stored session with that hash if there is one, and the one the runs look up when no two have the same |
| Sessions.InMemorySessionStore.RevokeMatching | apps/api/src/infra/auth/in-memory-auth-stores.ts:123-151 | stamps every live session of the family or user, no other, and counts each once |
| Sessions.InMemorySessionStore.RevokeSession | apps/api/src/infra/auth/in-memory-auth-stores.ts:114-121 | never restamps a revoked session |
| Sessions.InMemorySessionStore.DeleteExpiredSessions | apps/api/src/infra/auth/in-memory-auth-stores.ts:158-167 | drops the sessions expired before the given time and counts them |
| Sessions.StepKeeps | apps/api/src/modules/auth/auth.service.ts:611-668 | every store call of every concurrent request keeps the protocol invariant |
| Sessions.FamilySafety | apps/api/src/modules/auth/auth.service.ts:611-668 | in every interleaving a family has at most one unrevoked session, no session is rotated twice, and a revocation stamp never changes |
| Sessions.CaughtStaysDead | apps/api/src/modules/auth/auth.service.ts:617-621 | after a replay has revoked a family no session of it is ever active again |
| Sessions.BeginDecides | apps/api/src/domain/auth/session.ts:21-39 | a request for a stored token goes on to rotate it if and only if the session is neither revoked nor expired, and to revoke the family if and only if the session was rotated; otherwise it is over |
| Sessions.LookAgainDecides | apps/api/src/modules/auth/auth.service.ts:651-656 | a request whose rotation was refused goes on to revoke the family if and only if the session it finds was rotated, and is over otherwise |
| Sessions.RotatedWasLive | apps/api/src/modules/auth/auth.service.ts:611-668 | in every run, a session that was rotated was neither revoked nor expired when the request that rotated it began |
| Sessions.UncontestedRefresh | apps/api/src/modules/auth/auth.service.ts:611-668 | a live token presented while nobody else touches its session is spent, and its successor is stored |
| Sessions.ActiveRefreshes | apps/api/src/domain/auth/session.ts:41-43 | a session is active exactly when refreshing it would succeed |
| Sessions.BulkRevokes | apps/api/src/infra/auth/in-memory-auth-stores.ts:123-151 | a bulk revocation stamps the unrevoked sessions of its family or user with time and reason, changes nothing else of them and no other session |
| Sessions.CallsDo | apps/api/src/infra/auth/in-memory-auth-stores.ts:74-173 | amid whatever requests are under way, a login adds its session, revocations stamp the unrevoked sessions they are aimed at, expiry and purge drop theirs, and every other session stays as it is |
| Sessions.PurgeEmpties | apps/api/src/infra/auth/in-memory-auth-stores.ts:169-173 | a purged user has no session left, and nobody else has lost or changed one |
| Sessions.FamilyHasOneUser | apps/api/src/modules/auth/auth.service.ts:611-668 | in every run all sessions of a family belong to one user, so a replay revokes nobody else |
| Sessions.ReplayIsCaught | apps/api/src/domain/auth/session.ts:24-31 | a rotated token that comes back while its session is stored, expired or not, makes its request revoke the family |
| Sessions.ReplayRevokesTheFamily | apps/api/src/modules/auth/auth.service.ts:617-621 | when that request revokes, every session of the family that is still live is stamped and none stays live |
| Sessions.LoserIsRefused | apps/api/src/modules/auth/auth.service.ts:651-653 | of two requests that found the same session valid, the rotation of the second is refused without changing the store, and it looks its token up again |
| Sessions.LoserIsCaught | apps/api/src/modules/auth/auth.service.ts:652-656 | if the session is still stored by then, the second request goes on to revoke the family |
| Sessions.RaceEndsTheFamily | apps/api/src/modules/auth/auth.service.ts:647-667 | and once it has, no session of the family is live, the one the first request was given included |
| Split.SplitEqually | apps/api/src/domain/split/split.ts:24-38 | fails exactly on a non-positive amount or no member; otherwise shares in member order, at most one unit apart, larger ones first, adding up to the amount |
| Split.AssertSharesReconcile | apps/api/src/domain/split/split.ts:44-62 | accepts exactly positive shares of distinct members that add up to the amount |
| Split.ComputeNetBalances | apps/api/src/domain/split/split.ts:68-93 | the loops over the balance map compute `NetBalances` |
| Split.BalanceIsMemberNet | apps/api/src/infra/in-memory-store.ts:588-603 | the balance of a member is the sum `removeMember` computes on its own, and settlements do not change the total |
| Split.MemberNet | apps/api/src/infra/in-memory-store.ts:588-603 | the loops of `removeMember` compute that sum |
| Split.BalancesAreZeroSum | apps/api/src/domain/split/split.ts:64-67 | when every expense is divided exactly, balances add up to zero |
| Split.SuggestSettlements | apps/api/src/domain/split/split.ts:110-132 | the sorting, decrementing and shifting loop computes the greedy plan |
| Split.SettleConserves | apps/api/src/domain/split/split.ts:119-130 | what a creditor receives and still claims is what was owed, likewise for debtors, and one queue runs dry |
| Split.SuggestionsLaws | apps/api/src/domain/split/split.ts:110-132 | every suggestion is a positive payment from someone who owes to someone who is owed, and there are fewer than non-zero members |
| Split.PayingSettlesEveryone | apps/api/src/domain/split/split.ts:68-132 | recorded as settlements, the suggestions bring every member to zero if and only if the balances add up to zero |
| Fewest.FewestPayments | apps/api/src/domain/split/split.ts:105-132 | `n` payments can bring everyone to zero if and only if the members with a balance other than zero can be divided into so many groups that each balance on their own that groups and payments together are at least as many as those members |
| Fewest.FewestExactly | apps/api/src/domain/split/split.ts:105-132 | no payments that bring everyone to zero are fewer than the suggestions, as the comment promises, if and only if no division into groups that balance on their own has more groups than the loop has rounds that shift both queues |
| Fewest.SuggestionsAndTies | apps/api/src/domain/split/split.ts:119-130 | when the balances add up to zero, suggestions and rounds that shift both queues are together as many as the members with a balance other than zero |
| Fewest.IndivisibleIsFewest | apps/api/src/domain/split/split.ts:105-132 | the suggestions are the fewest whenever no group of those members but all of them together balances on its own |
| Fewest.GreedyIsNotTheFewest | apps/api/src/domain/split/split.ts:105-132 | they are not always: for balances 5, 4, -4, -3, -2 there are four and three do |
| Fewest.LessThanTwiceTheFewest | apps/api/src/domain/split/split.ts:110-132 | any payments that bring everyone to zero are more than half as many as the suggestions |
| Fewest.EveryPlanIsAsLong | apps/api/src/domain/split/split.ts:110-132 | no such payments are fewer than the creditors or than the debtors |
| Base32.EncodeBase32 | apps/api/src/domain/auth/totp.ts:50-64 | the nested loops over int32 accumulators compute `Encode` |
| Base32.DecodeBase32 | apps/api/src/domain/auth/totp.ts:66-81 | refuses exactly the texts outside `[A-Z2-7]+`, and otherwise computes `Decode` |
| Base32.ShiftedIn | apps/api/src/domain/auth/totp.ts:54-54 | while at most 32 bits are live, shifting in and or-ing appends the new bits: wraparound is never seen |
| Base32.Bitwise | apps/api/src/domain/auth/totp.ts:54-57 | the models of the two connectives of ECMAScript work bit by bit |
| Base32.EncodeSpells | apps/api/src/domain/auth/totp.ts:50-64 | the symbols spell the bits of the bytes, followed by fewer than five zero bits |
| Base32.SpellingIsUnique | apps/api/src/domain/auth/totp.ts:50-64 | n bytes take ceil(8n/5) symbols, and only one text spells them |
| Base32.DecodeEncode | apps/api/src/domain/auth/totp.ts:50-81 | decoding an encoding gives the bytes back; only the empty byte string encodes to a text the check refuses |
| Base32.EncodeDecode | apps/api/src/domain/auth/totp.ts:50-81 | encoding what was decoded gives the text back if and only if its leftover bits are fewer than five and zero |
| Statements.InMemoryStatementImportStore.Create | apps/api/src/infra/statement-import-store.ts:42-52 | adds the import with its two events, or reports which of the quota and the duplicate check refused it |
| Statements.InMemoryStatementImportStore.Enqueue | apps/api/src/infra/statement-import-store.ts:54-72 | adds a queued import, or reports whether bytes and active imports or a duplicate refused it |
| Statements.InMemoryStatementImportStore.ClaimJobs | apps/api/src/infra/statement-import-store.ts:74-105 | the two loops over all users compute `Claim` and the jobs of its batch; `StatementLaws.ClaimDoes` and `StatementLaws.BatchExactly` say in fields what that is |
| StatementLaws.BatchExactly | apps/api/src/infra/statement-import-store.ts:93-100 | due is what is queued with a source or has been processed for more than 300000 ms; a claim takes as many as are due, up to the limit clamped to 1 to 100, and the oldest |
| StatementLaws.ClaimDoes | apps/api/src/infra/statement-import-store.ts:74-105 | a claim drops what has outlived its retention, fails what was given up a third time, leases exactly what it takes with one attempt more, and leaves every other import as it is |
| StatementLaws.DueIsLeased | apps/api/src/infra/statement-import-store.ts:90-105 | an import that is due, with retention and attempts left and nothing older due, is leased by the next claim |
| StatementLaws.StaleLeaseEnds | apps/api/src/infra/statement-import-store.ts:80-105 | a lease of more than five minutes is renewed by a claim that reaches it while fewer than three attempts are used, and failed otherwise |
| StatementLaws.UploadIsLeased | apps/api/src/infra/statement-import-store.ts:54-105 | an upload that is stored is leased, with its source, by the next claim within ninety days, when nothing older is due |
| StatementLaws.OnlyJob | apps/api/src/infra/statement-import-store.ts:98-105 | when it is the only import due, that claim returns its job and no other |
| StatementLaws.EnqueueStores | apps/api/src/infra/statement-import-store.ts:54-72 | an upload that fits into 64 MiB, meets at most four active imports and is new is stored behind the others, with its source, its event and ninety days of retention |
| StatementLaws.EnqueueRefuses | apps/api/src/infra/statement-import-store.ts:54-72 | any other is refused and changes no import |
| StatementLaws.CreateStores | apps/api/src/infra/statement-import-store.ts:42-52 | `create` adds an import with its rows and two events, whatever the number of active imports |
| StatementLaws.CreateRefuses | apps/api/src/infra/statement-import-store.ts:42-52 | and refuses, changing nothing, exactly what does not fit or is no new file |
| StatementLaws.RoomTaken | apps/api/src/infra/statement-import-store.ts:253-259 | an import takes the length of its source from the quota, and a place while it is queued or processing |
| StatementLaws.EditLands | apps/api/src/infra/statement-import-store.ts:228-231 | an operation on an import changes the first import of the user with its id, when it applies, and no other |
| StatementLaws.CompleteDoes | apps/api/src/infra/statement-import-store.ts:113-125 | completing applies exactly to a processing import and makes it ready, with the rows, their counts and the time, its lease and error cleared |
| StatementLaws.FailDoes | apps/api/src/infra/statement-import-store.ts:127-136 | failing applies exactly to a processing import and records the first 500 characters of the error |
| StatementLaws.UpdateDoes | apps/api/src/infra/statement-import-store.ts:138-146 | an update patches content, flags and decision of the first row with the id and stamps it, and leaves the other rows |
| StatementLaws.SplitDoes | apps/api/src/infra/statement-import-store.ts:160-169 | a split excludes the parent, flags it, and appends the parts |
| StatementLaws.MergeDoes | apps/api/src/infra/statement-import-store.ts:171-184 | a merge of two rows or more, all of them found, excludes and flags each of them and appends the merged row |
| StatementLaws.DecideDoes | apps/api/src/infra/statement-import-store.ts:148-158 | a decision on rows that are all found sets their decision and leaves the other rows |
| StatementLaws.DeletionsDo | apps/api/src/infra/statement-import-store.ts:197-214 | dropping the source or deleting applies exactly to an import that is not deleted, and changes only status, lease, source and deletion time |
| StatementLaws.ApprovalDoes | apps/api/src/infra/statement-import-store.ts:190-194 | approval sets status and time, clears the lease and changes nothing else |
| Statements.BatchIsFull | apps/api/src/infra/statement-import-store.ts:94-99 | a claim stops short of its limit only when nothing claimable is left |
| Statements.BatchIsOldest | apps/api/src/infra/statement-import-store.ts:94-99 | a claim leaves nothing older than what it takes |
| Statements.InMemoryStatementImportStore.CompleteProcessing | apps/api/src/infra/statement-import-store.ts:113-125 | a processing import becomes ready, with the given rows recounted, and is returned; any other call changes nothing and returns nothing |
| Statements.InMemoryStatementImportStore.FailProcessing | apps/api/src/infra/statement-import-store.ts:127-136 | fails a processing import, with the error cut to 500 characters, and says whether it did |
| Statements.InMemoryStatementImportStore.UpdateStatementRow | apps/api/src/infra/statement-import-store.ts:138-146 | patches the first row with the id of a ready import, never its ids, and returns that row exactly when there is one |
| Statements.InMemoryStatementImportStore.UpdateRowsDecision | apps/api/src/infra/statement-import-store.ts:148-158 | decides all the named rows of a ready import and returns them, or none when one is missing |
| Statements.InMemoryStatementImportStore.SplitStatementRow | apps/api/src/infra/statement-import-store.ts:160-169 | excludes the parent row of a ready import and appends the parts, and returns them exactly then |
| Statements.InMemoryStatementImportStore.MergeStatementRows | apps/api/src/infra/statement-import-store.ts:171-184 | excludes the merged rows of a ready import and appends the merged one, and returns it exactly then |
| Statements.InMemoryStatementImportStore.BeginFinalize | apps/api/src/infra/statement-import-store.ts:186-189 | up to the awaited ledger, `finalize` finds a ready import and changes nothing |
| Statements.InMemoryStatementImportStore.CommitFinalize | apps/api/src/infra/statement-import-store.ts:190-194 | after it, it approves the import it found, whatever that has become |
| Statements.InMemoryStatementImportStore.DeleteStagedSource | apps/api/src/infra/statement-import-store.ts:197-204 | drops the source of any import that is not deleted, and says whether it did |
| Statements.InMemoryStatementImportStore.DeleteImport | apps/api/src/infra/statement-import-store.ts:206-214 | marks an import deleted, once, and says whether it did |
| Statements.TallyPartitions | apps/api/src/infra/statement-import-store.ts:233-238 | included, excluded and undecided rows add up to the total |
| StatementRuns.StepKeeps | apps/api/src/infra/statement-import-store.ts:42-214 | every operation, and every half of a `finalize`, keeps: counters equal the counts of the rows, attempts at most 3, at most 64 MiB staged and 5 active imports per user, and a `finalize` under way comes back to an import that is ready, approved or deleted |
| StatementRuns.StepEffect | apps/api/src/infra/statement-import-store.ts:42-214 | a stored import moves along an arrow of its life cycle (queued, processing, ready or failed, deleted) or not at all, except that the second half of `finalize` approves it from wherever it is; only a claim starts an attempt, and only `delete` deletes |
| StatementRuns.RunAges | apps/api/src/infra/statement-import-store.ts:42-214 | over any run a closed import keeps its rows, counters and attempts, one that is approved or deleted stays one of the two, a source is only ever dropped, and the event log only grows |
| StatementRuns.ClaimsAreSpaced | apps/api/src/infra/statement-import-store.ts:74-105 | two claims of one import are more than five minutes apart |
| StatementRuns.ClaimsAreCounted | apps/api/src/infra/statement-import-store.ts:74-105 | `attempts` counts the claims, so no import is claimed more than three times |
| StatementRuns.ClaimEndsRetention | apps/api/src/infra/statement-import-store.ts:265-278 | after a claim no stored source is past its retention |
| StatementRevivals.RevivedExactly | apps/api/src/infra/statement-import-store.ts:186-214 | in any run a deleted import comes back in a step if and only if a `finalize` that began before the deletion comes back then, no other one having done so since |
| StatementRevivals.TwinsAriseExactly | apps/api/src/infra/statement-import-store.ts:186-195 | a step makes the first two live imports of one file and account if and only if it is a `finalize` coming back to an import deleted meanwhile, of whose file and account there is a live one |
| StatementRevivals.FirstTwinsExactly | apps/api/src/infra/statement-import-store.ts:42-214 | in a run these arise if and only if a deleted import comes back whose file and account another import, added or brought back after the deletion, has taken over |
| StatementRevivals.WithoutAwaitNoTwins | apps/api/src/infra/statement-import-store.ts:186-195 | when every `finalize` comes back at once, as without a ledger, deleted imports stay deleted and no two live imports share file and account |
| StatementRevivals.DeletedImportComesBack | apps/api/src/infra/statement-import-store.ts:186-214 | for any file and account: `finalize` begins, the import is deleted, the file is uploaded again, `finalize` comes back; the first import is approved and the second is live |
| StatementRevivals.QuietIsFinal | apps/api/src/infra/statement-import-store.ts:74-214 | a closed import of which no `finalize` is under way keeps its status or is deleted, for good |
| StatementRevivals.FailedIsFinal | apps/api/src/infra/statement-import-store.ts:74-214 | a failed import is never anything but failed or deleted again |
| StatementRevivals.ApprovedLeavesForDeleted | apps/api/src/infra/statement-import-store.ts:186-214 | an approved import leaves that status only for deleted |
| Ledger.TransactionBucket.UpsertMany | apps/api/src/infra/in-memory-store.ts:201-250 | the loop computes `UpsertAll` and counts what it inserts and updates |
| Ledger.TransactionBucket.Update | apps/api/src/infra/in-memory-store.ts:252-263 | patches the first row with the id, or reports that there is none |
| Ledger.TransactionBucket.Remove | apps/api/src/infra/in-memory-store.ts:265-289 | the backward splicing loops leave exactly the rows the removal spares, in order |
| Ledger.UpsertDoes | apps/api/src/infra/in-memory-store.ts:209-244 | a transaction sent meets the first row of its account and provider id: it takes over what the provider tells and keeps id and marks, and category, note, merchant name and exclusion if the category source is a user or a user rule; every other row stays |
| Ledger.UpsertAdds | apps/api/src/infra/in-memory-store.ts:209-247 | it is added at the end if and only if there is no such row |
| Ledger.UpdateDoes | apps/api/src/infra/in-memory-store.ts:252-263 | an update gives the first row with the id the fields of the patch, leaves its other fields, and every other row |
| Ledger.RemovalTakes | apps/api/src/infra/in-memory-store.ts:265-289 | a removal takes exactly the rows with one of the provider ids, or of the import |
| Ledger.RunUnique | apps/api/src/infra/in-memory-store.ts:201-289 | in every run (accountId, providerTxnId) stays unique |
| Ledger.StepKeepsChoices | apps/api/src/infra/in-memory-store.ts:201-289 | a category the user chose survives every step that does not edit or remove its row |
| Ledger.RunRow | apps/api/src/infra/in-memory-store.ts:201-289 | a row that is neither edited nor removed depends only on what was sent for its key, in order, however the other rows change |
| Ledger.RunKeepsChoices | apps/api/src/infra/in-memory-store.ts:212-236 | however often a transaction is sent again, a category the user chose stays, and with it the note, the merchant name, the exclusion and the marks on that row |
| Ledger.SyncKeepsPrivateExactly | apps/api/src/infra/in-memory-store.ts:218-241 | a sync keeps the note, the merchant name and the exclusion of a row if and only if the user chose its category, or the row that decides in the batch carries the same three: the first with that key whose category is chosen, or else the last |
| Ledger.RunKeepsPrivateExactly | apps/api/src/infra/in-memory-store.ts:218-241 | over a run, the same with everything sent in it |
| Ledger.NoteIsErased | apps/api/src/infra/in-memory-store.ts:230-241 | a note on a row whose category the user did not choose is gone after the next sync of that row |
| Ledger.RepeatedBatch | apps/api/src/infra/in-memory-store.ts:200-250 | repeating a batch with distinct keys inserts nothing, and changes nothing if and only if the newly inserted rows agree with their own recurring override |
| Ledger.SyncShowsEvidence | apps/api/src/infra/in-memory-store.ts:205-247 | after a sync every row of the batch shows what the provider sent, under its old id and marks, and other rows are untouched |
| Ledger.UndoLeaves | apps/api/src/infra/in-memory-store.ts:201-289 | undoing an import just made leaves exactly the rows of other imports whose keys it did not carry, in order |
| Ledger.UndoRestoresExactly | apps/api/src/infra/in-memory-store.ts:278-289 | it restores the ledger if and only if no row was held under one of the keys of the import, or under its id |
| Ledger.UndoReachesOthers | apps/api/src/infra/in-memory-store.ts:282-283 | contrary to the comment, it takes away a row that came from elsewhere when the import held the same transaction |
| Paging.PagesMakeTheList | apps/api/src/infra/in-memory-store.ts:148-194 | for any filter and page size the pages, each behind the last row of the one before, make up the whole sorted list |
| Paging.ListedExactly | apps/api/src/infra/in-memory-store.ts:148-194 | without its limit the list has exactly the rows that pass every filter asked for and lie behind the cursor, each as often as the store has it |
| Paging.ExactIffOrdersAgree | apps/api/src/infra/in-memory-store.ts:163-168 | behind every row the cursor finds exactly the rest of the list if and only if `<` and the sorting order agree on the ids of each day |
| Paging.PagesExactly | apps/api/src/infra/in-memory-store.ts:148-194 | for any sorting order the pages make up the sorted list if and only if, behind the last row of every page, the cursor lets through the later rows and no other |
| Paging.RowIsSkipped | apps/api/src/infra/in-memory-store.ts:163-168 | two rows of one day whose ids the two orders rank differently: in pages of one the second is never shown |
| Paging.PageShrinks | apps/api/src/infra/in-memory-store.ts:163-168 | whichever order sorts the list, every page moves the cursor on |
| Review.SimilarityLaws | apps/api/src/domain/imports/review.ts:70-81 | similarity is symmetric, between 0 and 1, and 1 exactly for equal texts or equal sets of words |
| Review.TokensAreWords | apps/api/src/domain/imports/review.ts:73-74 | the tokens compared are the words of two letters or more, whatever words the text is made of |
| Review.FindDuplicate | apps/api/src/domain/imports/review.ts:95-120 | the loop keeps the first best score, as `Duplicate` says |
| Review.DuplicateLaws | apps/api/src/domain/imports/review.ts:95-120 | a duplicate is reported if and only if some held row scores at least 0.8, and it is the best of them |
| Review.MatchesExactly | apps/api/src/domain/imports/review.ts:53-60 | although rows up to three days apart are compared, only rows on the same day (similarity at least 1/2) or a neighbouring day (at least 7/8) reach the threshold |
| Review.ColumnOf | apps/api/src/domain/imports/review.ts:142-150 | the first column whose header is the mapped name, or -1 exactly when the mapping has no name or no header is that name |
| Review.ReviewImport | apps/api/src/domain/imports/review.ts:138-246 | the mapping loop with its growing list of accepted rows computes `Reviewed` of the readings below, and its summary |
| Review.ReadsDebitOrCredit | apps/api/src/domain/imports/review.ts:261-271 | under debit and credit columns a row is money out by the debit, or money in by the credit, exactly when one of them parses to something other than 0; when both or neither do the amount is unreadable |
| Review.ReadsDirection | apps/api/src/domain/imports/review.ts:273-282 | with a direction column the amount is negative under an outflow word and positive under an inflow word only |
| Review.ReadsSigned | apps/api/src/domain/imports/review.ts:273-284 | a signed amount is taken as it is parsed |
| Review.FaultsInOrder | apps/api/src/domain/imports/review.ts:157-194 | the first fault is reported, exactly: ragged, then an unreadable date, then an unreadable or zero amount, then an empty description |
| Review.ValidExactly | apps/api/src/domain/imports/review.ts:157-194 | a row is valid if and only if it is not ragged, its date parses, its description is not empty, and exactly one of debit and credit, or the amount with a direction word, or the signed amount, parses to something other than 0 |
| Review.ImportedExactly | apps/api/src/domain/imports/review.ts:201-236 | a row is imported if and only if it is valid and matches neither the ledger nor a row imported before it |
| Review.SummaryPartitions | apps/api/src/domain/imports/review.ts:231-246 | importable, duplicate and invalid rows partition the file |
| Review.SummaryAdds | apps/api/src/domain/imports/review.ts:231-246 | one row more adds one to the total and to the count of its decision, and its amount to the net amount if it is imported |
| Review.PendingIdsDiffer | apps/api/src/domain/imports/review.ts:214-216 | rows accepted from one file get different ids |
| Review.EndsSpan | apps/api/src/domain/imports/review.ts:232-244 | the date range is the least and the greatest importable date |
| Review.SecondReview | apps/api/src/domain/imports/review.ts:138-246 | reviewed again after its importable rows joined the ledger, every valid row is a duplicate and every invalid row is invalid for the same reason |
| Review.SecondReviewImportsNothing | apps/api/src/domain/imports/review.ts:229-246 | so the second review imports nothing and its net amount is 0 |
| Forecast.CadenceFor | apps/api/src/domain/insights/cash-flow-forecast.ts:69-77 | the loop over the windows finds the first one the interval fits, for incomes and for bills |
| Forecast.IncomeCadences | apps/api/src/domain/insights/cash-flow-forecast.ts:53-59 | the windows of an income series, which do not overlap: 5 to 9, 12 to 16, 25 to 35, 81 to 101 and 345 to 385 days, and nothing else |
| Forecast.BillCadences | apps/api/src/domain/insights/subscriptions.ts:42-47 | the windows of a bill: the same without the biweekly one |
| Forecast.SeriesDetected | apps/api/src/domain/insights/cash-flow-forecast.ts:128-150 | an income is let through exactly when its pay days look semimonthly or its interval is in a window, a bill exactly when its interval is in one; both keep merchant, amount and interval, and a bill starts at its next date |
| Forecast.DetectionHolds | apps/api/src/domain/insights/cash-flow-forecast.ts:69-77 | so every series that detection lets through moves on by 5 to 9 days if weekly and 12 to 16 if biweekly, as the forecast needs |
| Forecast.NextByCadence | apps/api/src/domain/insights/cash-flow-forecast.ts:79-90 | the next occurrence is the interval of the series later if weekly or biweekly, one, three or twelve months later on the same day or the last of its month, and on the 15th or the first of the next month if twice a month |
| Forecast.NthByCadence | apps/api/src/domain/insights/cash-flow-forecast.ts:79-90 | and so is, step by step, the n-th one |
| Forecast.NthSemimonthly | apps/api/src/domain/insights/cash-flow-forecast.ts:79-90 | a series twice a month alternates between the 15th and the first |
| Forecast.Advances | apps/api/src/domain/insights/cash-flow-forecast.ts:79-90 | every cadence moves on strictly |
| Forecast.CollectSeries | apps/api/src/domain/insights/cash-flow-forecast.ts:171-195 | the skipping and collecting loops compute `EventsOf` |
| Forecast.EventsOfExactly | apps/api/src/domain/insights/cash-flow-forecast.ts:171-195 | the events of an income are exactly its occurrences in (asOf, end], each adding its amount; those of a bill likewise, from its next date on, each taking its amount away |
| Forecast.EventsFromIncrease | apps/api/src/domain/insights/cash-flow-forecast.ts:171-195 | each occurrence appears once, in order |
| Forecast.ForecastCashFlow | apps/api/src/domain/insights/cash-flow-forecast.ts:156-216 | fails exactly outside 1 to 90 days; otherwise sorted events in the window and one point a day equal to the starting balance plus all events dated on or before it |
| Forecast.BalancesExplained | apps/api/src/domain/insights/cash-flow-forecast.ts:156-216 | every point is the starting balance plus, over the incomes, amount times occurrences up to that day, less the same over the bills |
| Forecast.EventsInOrder | apps/api/src/domain/insights/cash-flow-forecast.ts:199-199 | events come by date, and within a day the larger amount first |
| Forecast.LowDatesAre | apps/api/src/domain/insights/cash-flow-forecast.ts:205-213 | the low days are exactly those of the points below zero |
| Forecast.StartsWith | apps/api/src/domain/insights/cash-flow-forecast.ts:167-170 | the starting balance adds up the checking, savings and cash accounts of the currency |
| Forecast.RunBalances | apps/api/src/domain/insights/cash-flow-forecast.ts:197-213 | the running balance over per-day sums equals that prefix sum |
| Forecast.SimulatePurchase | apps/api/src/domain/insights/purchase-simulator.ts:25-77 | fails exactly on a bad amount, horizon or date; otherwise the points are those of the forecast with one more event of minus the amount on the purchase date |

## Left out

- Years outside 0 to 9999, whose strings are not `YYYY-MM-DD`, are compared as dates and not as strings; `assertIsoDate` and `toIsoDate` are part of the type.
- `localeCompare` is an arbitrary total order; where the cursor of `list` compares with `<`, agreement of the two orders is the stated condition.
- Floating point: scores of the import review and the window and block lengths of the throttler are exact numbers; `duplicateConfidence` is not rounded to two digits.
- Throttler.ThrottlerStorage.Increment: the row-locked transaction is one atomic step at the database's clock reading; connection errors and rollbacks are not modelled.
- CborGrammar.DecodeEncode: UTF-8 decoding is a parameter, and text is supported when that parameter inverts the encoder on it; integers are supported up to 2^53 in magnitude, as doubles hold them.
- Cbor.Decoder.Decode: keys of a JavaScript `Map` that are objects are kept as distinct entries, because two decoded objects are never identical.
- `detectDelimiter`, and the trimming and blank-record filtering of `parseCsv`.
- The cells of `xlsxToCsv` (XML matching, shared strings, date columns); only its escaping and row join.
- Sessions: `findById`, `listActive` and the audit events; token hashes and ids are abstract distinct values, and a new session never reuses one.
- Sessions.InMemorySessionStore.FindByTokenHash: when several sessions share a token hash any of them may be returned; runs never produce two.
- Split: `purgeUser`, which drops participants without rebalancing; group membership, invitations and the store of expenses.
- Base32: the HMAC, the codes and their time window.
- Statements.InMemoryStatementImportStore.BeginFinalize: the ledger that `finalize` awaits is a separate store (Ledger), whose failures are not modelled; without a ledger nothing is awaited, which is a commit right after the begin.
- Statements: the reading operations (`list`, `get`, `rows`, `source`, `audit`), `strip` and the copies returned to callers, `documentDetails`, file names and types; `delete` keeps the staged source, which counts against the quota until it expires, and the model does the same.
- Ledger.TransactionBucket.Update: a patch may set the user-facing fields; patches that change keys or ids are excluded, as the uniqueness claim requires.
- Paging: the filters on category kind, search text and tag are one arbitrary predicate.
- Review.ReviewImport: `parseDate`, `parseAmount`, `normalizeDescriptor`, trimming and the two direction patterns are parameters; the source's reason texts are an enumeration.
- Trend.ComputeAnalytics: medians, velocity, refund matching, rankings and the timeline of the report.
- Forecast.ForecastCashFlow: which transactions make up a recurring income or a subscription, and the confidence in it; the series are inputs, and only their cadence is derived. Warning texts of the simulator.
- Network and vendor adapters, other SQL adapters, cryptography, HTTP wiring, configuration, user interface.
