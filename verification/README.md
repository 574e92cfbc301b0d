# zero-railway core in Dafny

This project models the data pipeline under the HTTP handlers of zero-railway, a Go backend
(Fiber, MongoDB, Redis). It links users' bank and card connections through Plaid. The model
covers five parts.

- **Provider client.**
  - Each stored connection (a `Token`) is routed by purpose.
  - Debit connections keep their depository accounts.
  - Credit connections go through the 500-per-page liabilities and transactions loop, which
    de-duplicates accounts and transactions by external id.
  - The raw provider data is normalised into the service's `Account`/`Transaction` records:
    the liability map, per-purpose account conversion, and `"2006-01-02"` dates turned into
    UTC-midnight epoch milliseconds.
  - ObjectID hex encoding and the token collection are modelled as well.
- **Aggregation and caching.**
  - `FetchDataAndCache` concatenates every connection's details and writes them to Redis
    under the user's hex id.
  - `ClearCache` invalidates that entry.
  - The two read-through user caches are the e-mail lookup and the Clerk middleware.
- **Queries over the consolidated account list.**
  - Whether an account type is linked.
  - The first depository balance, and account lookup by id.
  - The planning KPIs and the waterfall series.
  - The grouping, composition and sending of payment-action notifications.
- **Linking.**
  - Purpose and product rules for link tokens, and the transfer gate on the exchange.
  - The exchange handler's e-mail/public-token swap, token assembly and step order.
- **Small pure functions and user-store rules.**
  - `PurposeFromString`, `FormatPhoneNumber` and `GetPlaidErrorCode`.
  - Create-if-absent, the phone update, the `CleanUp` sweep and the hex-id guards.

## Modelling conventions

- **Stores.**
  - Redis is a `map<string, Entry>`, where an entry is a cached user or cached account
    details. A read is `Hit`, `Miss` or `Failed`.
  - MongoDB collections are sequences in the store's natural order. `FindOne` returns the
    first match in that order.
  - Whether a store call fails is an explicit `Option<Error>` input (`CacheFaults` for the
    cache).
- **External services are oracles.** Plaid (`Provider`, `Linker`), the planning service
  (`Planner`) and the SMS and upcoming-actions endpoints (`Services`) are records of total
  functions given as parameters. A handler's externally visible steps are returned as a
  sequence of `Effect`s or `Step`s, so order properties can be stated.
- **Parameters replace hidden inputs.** The 90-day transaction window is a parameter
  (`Window`), and so is every freshly minted ObjectID (`newId`).
- **Go panics.** A nil dereference, an out-of-range index or a bad slice is `Err(Panic)` in
  a helper and `Abort` in a handler response. Fiber's recover middleware turns a panic into a
  500.
- **Account and transaction ids.** `Account.ID` is the provider's external id string, left
  `""` for debit accounts. `Transaction.Date` is an integer of milliseconds.
- **Normaliser output.** It keeps a nil slot for an unmatched credit account, so the account
  list is `seq<Option<Account>>`. Every query that dereferences a slot models the nil case.
- **Number types.** Balances, APRs and amounts are `real`, with no claims about rounding.
  `UnixNano`'s int64 wrap-around is written out (`WrapInt64`).
- **Notification order.** The notification handler groups in a Go map whose iteration order
  is unspecified. The model uses first-appearance order, and its properties do not depend on
  that order. The waterfall handler ranges over its series map and answers with a list in
  Go's unspecified map order. The model returns the map itself and leaves that order out.
- **Assumptions about the source.**
  - The handler's cached `h.GetUserByEmail` is modelled as its two-argument definition at
    `handlers/utils.go:47` (`Identity.GetUserByEmail`). The one-argument calls on the handler
    (for example `handlers/planning.go:32`) do not compile as written.
  - `plaidClient.GetUserByEmail` (`handlers/plaid.go:150` and `:241`) is the client's own
    uncached lookup at `app/clients/plaid_client.go:628-636`, modelled as `Link.FindUser`.
  - The notification handler calls `GetUserAccounts(h, &id)` and `GetDebitAccountBalance(h, &id)`
    (`handlers/notification.go:58` and `:62`) with two arguments. Both are declared with a third
    `rcache *cache.Cache` parameter (`handlers/accounts.go:93` and `:114`), so these calls do not
    compile as written. The model passes them the handler's cache.
  - `h.Db` is the users collection.
  - The notification handler compares an account's hex id with the action's account id. The
    model compares it with the account's id string.

## Model

| member | source | states |
|---|---|---|
| Models.PurposeFromString | models/plaid.go:19-28 | a known purpose never comes with an error, and PURPOSE_UNKNOWN always comes with the invalid-purpose error |
| Models.PurposeFromStringExact | models/plaid.go:19-27 | "credit" gives PURPOSE_CREDIT and "debit" gives PURPOSE_DEBIT (iff); every other string, case variants included, is an error |
| Models.PurposeRoundTrip | models/plaid.go:14-28 | the string of a purpose parses back to it exactly for credit and debit; "unknown" does not round-trip |
| ObjectIds.Hex | app/clients/plaid_client.go:300 | an ObjectID prints as 24 lower-case hex digits |
| ObjectIds.FromHex | handlers/accounts.go:43-46 | input of any length other than 24 is rejected as invalid hex |
| ObjectIds.EncodeBytes | app/clients/plaid_client.go:316-319 | each byte becomes two lower-case hex digits |
| ObjectIds.DecodeBytes | app/clients/plaid_client.go:316-319 | a successful decode yields half as many bytes as digits |
| ObjectIds.DecodeEncode | app/clients/plaid_client.go:316-319 | decoding the encoding of any byte string gives it back |
| ObjectIds.EncodeDecode | app/clients/plaid_client.go:345-348 | re-encoding decoded text gives the text in lower case |
| ObjectIds.DecodeAccepts | handlers/user.go:77-80 | even-length text decodes iff every character is a hex digit of either case |
| ObjectIds.HexRoundTrip | app/clients/plaid_client.go:374-377 | FromHex(Hex(id)) == Ok(id) for every id, so the NewObjectID fallback is unreachable |
| ObjectIds.FromHexExactly | handlers/accounts.go:64-67 | FromHex accepts exactly 24 hex digits, and a parsed id prints as the lower-cased input |
| Dates.Parse | app/clients/plaid_client.go:378-383 | an accepted "2006-01-02" date is a valid calendar date (month range, month lengths, leap years); a rejection names the input |
| Dates.Format | app/clients/plaid_client.go:378-383 | a valid date prints as 10 characters |
| Dates.ParseFormat | app/clients/plaid_client.go:378-383 | every valid date with a 4-digit year parses back from its printed form |
| Dates.FormatParse | app/clients/plaid_client.go:378-383 | every accepted string is exactly the printed form of the date it parses to |
| Dates.MarchFirstStep | app/clients/plaid_client.go:385 | consecutive March-firsts are 365 days apart, or 366 when the later year is a leap year |
| Dates.NextDayCounts | app/clients/plaid_client.go:385 | the day count since the epoch grows by exactly one from a date to the next |
| Dates.EpochIsDayZero | app/clients/plaid_client.go:385 | 1970-01-01 is day 0 |
| Dates.DaysInInt64Range | app/clients/plaid_client.go:385 | dates in years 1678-2261 are within 106650 days of the epoch, so their nanoseconds fit in int64 |
| Dates.WrapInt64 | app/clients/plaid_client.go:385 | the wrapped value is in the int64 range and congruent to the input modulo 2^64 |
| Dates.UnixMillis | app/clients/plaid_client.go:385 | the stored value is the int64 nanosecond count, wrapped as Go wraps it and truncated toward zero to milliseconds, so it stays within ±9223372036854 |
| Dates.UnixMillisExact | app/clients/plaid_client.go:385 | for years 1678-2261 the stored date is exactly days since 1970-01-01 times 86400000 |
| Seqs.FindIndex | app/clients/plaid_client.go:488-491 | the index returned is the first element satisfying the predicate, and None means none does |
| Seqs.FindOne | app/clients/plaid_client.go:467-479 | a store's FindOne returns the first match in store order, reports no-documents iff nothing matches, and passes a store failure through |
| Seqs.Filter | app/clients/plaid_client.go:450-457 | the result holds exactly the elements satisfying the predicate, and nothing else |
| Seqs.FilterCounts | app/clients/plaid_client.go:450-457 | every kept element occurs in the result exactly as often as in the input; every other element occurs zero times |
| Seqs.FilterPrefix | app/clients/plaid_client.go:450-457 | the kept elements stay in input order: filtering a prefix of the input gives a prefix of the result |
| Seqs.KeepIds | app/clients/plaid_client.go:252-256 | after a de-duplicating pass the seen-id set is the old set plus every eligible element's id |
| Seqs.KeepIsFirstOccurrences | app/clients/plaid_client.go:248-264 | the pass keeps exactly the first eligible element per unseen id, in input order (reference definition FirstOccurrences) |
| Seqs.KeepConsistent | app/clients/plaid_client.go:248-264 | a pass never keeps two items with one id, keeps only eligible input elements, keeps the seen set equal to the kept ids, and only appends |
| Seqs.KeepAppend | app/clients/plaid_client.go:266-293 | two passes in a row equal one pass over the concatenated input, so paging does not change the result |
| Fetch.FetchDebitInfo | app/clients/plaid_client.go:204-220 | the debit path returns exactly the provider's depository accounts, each as often as the provider listed it, in the provider's order; it passes the provider's error through |
| Fetch.LoopOffsets | app/clients/plaid_client.go:270 | the loop's offsets start at its first value, strictly increase and stay below the total; there are none exactly when the start is not below the total |
| Fetch.LoopOffsetsFrom | app/clients/plaid_client.go:266-272 | the follow-up offsets are 500, 1000, ... strictly below the first page's total, ceil(total/500)-1 of them |
| Fetch.MergePage | app/clients/plaid_client.go:248-264 | a page adds the first occurrences of its credit accounts with unseen ids, then the first occurrences of its transactions with unseen ids whose account is accepted once the page's accounts are in; the accepted account ids grow by the page's credit account ids |
| Fetch.MergePagePreserves | app/clients/plaid_client.go:248-264 | merging a page keeps account and transaction ids distinct, keeps every transaction on an accepted account, and only appends |
| Fetch.MergePageTransactionIds | app/clients/plaid_client.go:257-264 | a page adds the ids of exactly those of its transactions whose account is accepted after the page's accounts are merged |
| Fetch.FetchPages | app/clients/plaid_client.go:266-295 | one provider call per offset, in order, with count 500; on failure the calls stop at the failing offset and return its error |
| Fetch.FetchPagesAccounts | app/clients/plaid_client.go:266-293 | the accounts after all pages are one de-duplicating pass over every page's accounts |
| Fetch.FetchPagesPreserves | app/clients/plaid_client.go:266-295 | the paging loop keeps the merged output well formed |
| Fetch.FetchCreditInfo | app/clients/plaid_client.go:222-297 | the first call is count 500 at offset 0 over the window, and every call asks for 500 |
| Fetch.FetchCreditPlan | app/clients/plaid_client.go:238-272 | one call when total <= 500 (or fetchAll is off), otherwise ceil(total/500) calls at offsets 0, 500, 1000, ... |
| Fetch.FetchCreditAccounts | app/clients/plaid_client.go:248-293 | the merged accounts are exactly the credit-typed accounts with distinct ids, in first-seen order over all pages |
| Fetch.FetchCreditWellMerged | app/clients/plaid_client.go:248-293 | the credit output has distinct account ids, distinct transaction ids, and every transaction references an accepted account |
| Fetch.TransactionBeforeItsAccountIsDropped | app/clients/plaid_client.go:257-264 | a transaction on a page before its account's page is dropped |
| Fetch.SamePageOrderDoesNotMatter | app/clients/plaid_client.go:248-264 | a page's accounts are merged before its transactions, so a transaction is kept when its account is on the same page |
| Fetch.FetchRaw | app/clients/plaid_client.go:168-194 | only PURPOSE_DEBIT makes one accounts call and yields depository accounts with no transactions or liabilities; every other purpose calls liabilities first, then the transactions loop only if that succeeded; the debit result is exactly the debit fetch's accounts or its error; a liabilities error is returned after that one call; otherwise the calls, the error and the merged accounts and transactions are those of the credit fetch |
| Normalize.LiabilityMap | app/clients/plaid_client.go:302-311 | a liability without an account id fails the whole map; otherwise the keys are exactly the liabilities' account ids |
| Normalize.LastLiabilityWins | app/clients/plaid_client.go:302-311 | with duplicate account ids the map holds the last liability with that id |
| Normalize.ResolveUserId | app/clients/plaid_client.go:316-319 | the owner id written on every record is the user's own id (the fallback never fires) |
| Normalize.DebitAccount | app/clients/plaid_client.go:320-330 | a debit account copies identity, type and balances and has no id, APRs, limit or statement fields |
| Normalize.CreditAccount | app/clients/plaid_client.go:336-368 | a credit account copies the provider fields and the liability's APRs (same length and order), limits and statement fields |
| Normalize.ConvertAccounts | app/clients/plaid_client.go:313-371 | one slot per input account; debit fills every slot; credit fills a slot iff its account id is in the liability map and leaves the rest nil |
| Normalize.ConvertTransactions | app/clients/plaid_client.go:372-417 | one record per input in order with ids copied, owner set and InPlan false; the first unparsable date fails the whole call with that date |
| Normalize.TransactionDateRoundTrip | app/clients/plaid_client.go:378-385 | a stored date is days since the epoch times 86400000, and the source string is the printed form of the parsed date |
| Normalize.PlaidResponseToPB | app/clients/plaid_client.go:299-422 | succeeds iff the liability map builds and every date parses; output lengths equal input lengths and every record carries the user's id; when the map builds, the accounts are each account converted against that map and the transactions are the converted transactions, and a date failure is that conversion's error |
| Normalize.GetAccountDetails | app/clients/plaid_client.go:168-202 | the provider calls are those of the routed fetch; a fetched result is answered with its normalisation; debit output is all depository with no transactions; credit output holds only credit accounts matched in the liability map |
| Normalize.DebitDetails | app/clients/plaid_client.go:168-220 | a successful debit fetch yields exactly its accounts, converted with an empty liability map, and no transactions |
| Normalize.CreditDetails | app/clients/plaid_client.go:168-202 | a successful credit fetch yields the first occurrence of each credit account across the pages, converted against the liability map, and the converted merged transactions |
| Cache.GetUser | handlers/utils.go:49 | a read of a user entry fails on a fault, misses iff the key is absent, and a hit is the stored user |
| Cache.GetDetails | handlers/utils.go:146 | a read of account details fails on a fault, misses iff the key is absent, and a hit is the stored details |
| Cache.Set | handlers/utils.go:59-66 | a successful write stores the entry under the key; a failed write changes nothing; other keys are untouched |
| Cache.Delete | handlers/utils.go:141 | a successful delete removes the key; a failed one changes nothing; other keys are untouched |
| Cache.GetAfterSet | handlers/utils.go:168-177 | a successful write is read back unchanged |
| Cache.GetAfterDelete | handlers/health.go:28 | after a successful delete the key reads as a miss |
| Tokens.SaveToken | app/clients/plaid_client.go:426-434 | a successful save appends the token with a fresh id and otherwise unchanged; a failure changes nothing |
| Tokens.SaveTokenKeepsIdsUnique | app/clients/plaid_client.go:426-434 | a fresh id keeps token ids unique, whatever id the caller's token carried |
| Tokens.UpdateToken | app/clients/plaid_client.go:436-444 | only value and item id of the first record with that id change; no match or a failure changes nothing |
| Tokens.UpdateTokenExact | app/clients/plaid_client.go:436-444 | with unique ids exactly the record with that id changes, and the ids stay unique |
| Tokens.GetTokens | app/clients/plaid_client.go:447-458 | the result is exactly the records whose user id matches (both directions), or the store failure |
| Tokens.GetTokensCountsAndOrder | app/clients/plaid_client.go:447-458 | the user's records come back in collection order, each as often as it is stored, and no other record |
| Tokens.GetToken | app/clients/plaid_client.go:462-482 | malformed hex fails before the query; a found token matches the value, or the id when one is given |
| Tokens.GetTokenEitherClause | app/clients/plaid_client.go:467-472 | either clause of the `$or` suffices to find a token |
| Tokens.GetUserToken | app/clients/plaid_client.go:484-492 | the token found shares the user's id, username or e-mail, and none is found iff no token does |
| Tokens.ItemExists | app/clients/plaid_client.go:618-626 | true iff the product is in the list |
| Identity.GetUserByEmail | handlers/utils.go:47-74 | the cache is read first; a cached user is returned with no DB read; a failed cache read or an undecodable entry is an error; on a miss the DB is read, and its error, the write's error or the found user is returned; a success is cached under the e-mail; a failure leaves the cache unchanged; other keys are never touched |
| Identity.GetUserByEmailReadThrough | handlers/utils.go:47-74 | after a success the next lookup is a pure cache hit with the same user and no DB read |
| Identity.GetUserFromClerkId | router/custom_middleware.go:13-45 | the middleware rejects iff the read failed, or it missed with a non-empty id and the lookup or the write failed; the cache changes only by caching, under the Clerk id and before Next, the very user the lookup found; a miss whose lookup and write succeed always does so |
| Identity.ClerkMiddlewareSettles | router/custom_middleware.go:20-43 | after a pass that called Next, the next request with that id is a pure cache hit |
| Aggregate.Consolidate | handlers/utils.go:155-161 | the loop only calls the provider, and on success what was gathered before stays a prefix of both lists |
| Aggregate.ConsolidateIsConcatenation | handlers/utils.go:153-166 | consolidation succeeds iff every token's details do; the result is the per-token accounts and transactions concatenated in token order; a failure is the first failing token's error |
| Aggregate.ConcatenatedCons | handlers/utils.go:155-161 | the consolidated details of a token list are the first token's followed by the rest's |
| Aggregate.FetchDataAndCache | handlers/utils.go:138-183 | reset deletes the key first and a delete error aborts with nothing else done; only the user's key can change; a success leaves exactly the returned details cached |
| Aggregate.ResetAlwaysFetches | handlers/utils.go:140-148 | with reset the token store is read after the delete and the read, whatever the read returned |
| Aggregate.HitIsServedFromCache | handlers/utils.go:146-147 | without reset a hit returns the cached value with no token read, no provider call and no cache change |
| Aggregate.ReadFailureIsReturned | handlers/utils.go:178-180 | without reset a read failure other than a miss is returned with nothing fetched and the cache unchanged |
| Aggregate.SecondCallIsAHit | handlers/utils.go:146-182 | after a success the next call without reset returns the same result from the cache alone |
| Aggregate.FetchPathResult | handlers/utils.go:147-177 | the fetch path returns the concatenation of the user's tokens' details, or the write error even though the data was computed |
| Aggregate.FetchAndStore | handlers/utils.go:148-177 | the token store is read first; a token-read failure is returned with nothing else done; a success is written under the user's key and nothing else changes; the cache changes only by that final write |
| Aggregate.FetchAndStoreFailure | handlers/utils.go:148-162 | a failed token read returns that error, otherwise the first failing token's error is returned; the cache is neither written nor changed |
| Aggregate.FetchPathFailure | handlers/utils.go:140-162 | on the fetch path, a failed token read or a failing token gives that error, no write happens, and the cache is left as it was after the optional delete |
| Aggregate.ConsolidateFailure | handlers/utils.go:155-160 | when some token fails, the loop fails with the first failing token's error, having only called the provider |
| Aggregate.FetchAccountDetails | handlers/utils.go:185-191 | returns the accounts of the non-reset fetch and passes its error and cache through |
| Aggregate.FetchTransactionDetails | handlers/utils.go:193-199 | returns the transactions of the non-reset fetch and passes its error and cache through |
| Aggregate.HandleHealthCheck | handlers/health.go:15-17 | the health endpoint always answers "OK" |
| Aggregate.ClearCache | handlers/health.go:19-36 | a failed user lookup deletes nothing; otherwise exactly the user's hex-id key is deleted, and a delete failure is a 500 |
| Aggregate.ClearCacheForcesRefetch | handlers/health.go:28 | after a successful clear the user's details miss, so the next non-reset fetch reads the token store |
| Link.FilterFor | app/clients/plaid_client.go:34-37 | credit gets the credit-card filter and debit the checking filter (iff) |
| Link.FindUser | app/clients/plaid_client.go:628-636 | the user found has the e-mail, and none is found iff no user has it |
| Link.GetUser | app/clients/plaid_client.go:494-505 | the lookup projects the found user to id, username and e-mail |
| Link.LinkTokenCreate | app/clients/plaid_client.go:97-136 | an unknown purpose fails before any lookup or state change; only debit rewrites the products to ["transactions"]; a failed lookup is returned after the one read; otherwise exactly the request with the found user's hex id, the products and the purpose's filter is sent, and the result is Ok iff the provider's call is, carrying the provider's token and the hex id, or else the provider's error |
| Link.ExchangePublicToken | app/clients/plaid_client.go:142-166 | the transfer step runs iff the exchange succeeded and the products include transfer; a transfer failure fails the call |
| Link.DebitLinkDisablesTransfer | app/clients/plaid_client.go:120-122 | after a debit link-token request no later exchange runs the transfer step |
| Link.SwapIfPublic | handlers/plaid.go:96-101 | e-mail and public token are swapped iff the e-mail starts with "public"; otherwise both are unchanged |
| Link.SwapIfPublicNormalises | handlers/plaid.go:96-101 | the swap only exchanges the two fields and changes nothing else; a result whose e-mail starts with "public" comes from an input where both fields do |
| Link.AssembleToken | handlers/plaid.go:114-117 | the saved token takes value and item id from the exchange, the user from the lookup, and institution and purpose from the input |
| Link.GetandSaveAccountDetails | handlers/plaid.go:203-236 | the refresh is a reset fetch for the whole user, and its error is never returned |
| Link.ExchangeHandler | handlers/plaid.go:90-137 | a lookup failure stops before the exchange; an exchange failure saves nothing; any failure leaves the whole state unchanged; the token store changes only by appending the assembled token, on success; after a success the cache is the forced (reset) refresh of the user's details over the store that holds the new token, and the refresh is the last step |
| Link.ExchangeHandlerOrder | handlers/plaid.go:104-135 | steps run in the order lookup, exchange, save, refresh; a token is saved iff the save step ran iff the response is a success |
| Link.ExchangeHandlerSavesAssembledToken | handlers/plaid.go:104-124 | on success the last stored token has the fresh id, the exchange's value and item id, the looked-up user and the input's institution and purpose |
| Queries.Scan | handlers/accounts.go:75-79 | the first account satisfying the test is found; a nil slot before any match is a panic |
| Queries.ScanWithoutNils | handlers/accounts.go:75-79 | with no nil slots the scan never panics and finds a match iff one exists |
| Queries.GetUserAccounts | handlers/accounts.go:93-98 | exactly the accounts of the non-reset fetch, with its error |
| Queries.Linked | handlers/plaid.go:302-307 | true iff some account has exactly that type, given no nil slots |
| Queries.LinkedScan | handlers/plaid.go:302-307 | the type test is a scan that finds a match iff some account has the type |
| Queries.AccountLinked | handlers/plaid.go:297-308 | fetch errors propagate; otherwise the answer is the type test over the fetched accounts |
| Queries.IsDebitAccountLinked | handlers/plaid.go:263-264 | true iff some fetched account has type "depository"; fetch errors propagate |
| Queries.IsCreditAccountLinked | handlers/plaid.go:281-282 | true iff some fetched account has type "credit"; fetch errors propagate |
| Queries.ArePlaidAccountsLinked | handlers/plaid.go:238-261 | the user is looked up without the cache; an unknown user is a 404; a failed debit or credit check is a 500; otherwise the response reports both checks |
| Queries.ArePlaidAccountsLinkedAnswers | handlers/plaid.go:238-261 | for a known user whose accounts are read, the response is whether a depository account exists and whether a credit account exists |
| Queries.LinkedChecksShareOneList | handlers/plaid.go:251-259 | after the debit check the credit check answers from the same cached list |
| Queries.FirstDepositoryBalance | handlers/accounts.go:127-134 | the balance is that of the first depository account, not a sum; none iff no account is depository |
| Queries.GetDebitAccountBalance | handlers/accounts.go:114-142 | a fetch failure gives no balance (the error is swallowed); otherwise the first depository balance |
| Queries.ParseUserId | handlers/accounts.go:43-46 | the path id parses iff it is valid hex, and prints back as its lower-case form |
| Queries.GetUsersAccountsByUserId | handlers/accounts.go:41-53 | malformed hex is a 400 before any fetch; otherwise the fetched accounts or a 500 |
| Queries.GetAccount | handlers/accounts.go:62-91 | malformed hex is a 400 before any fetch; a success is the first account with that id; no match aborts (nil error dereference) |
| Users.CreateIfAbsent | handlers/user.go:29-45 | an existing user is returned with nothing inserted; otherwise the candidate is inserted unless the insert fails |
| Users.CreateUser | handlers/user.go:22-47 | the store only ever gains the body with a fresh id, and then the response is "new user created" |
| Users.CreateUserExisting | handlers/user.go:29-30 | when a user with that e-mail exists, its id is returned and nothing is inserted |
| Users.CreateUserDuplicatesOnCacheFailure | handlers/user.go:30-43 | a lookup error leads to an insert even when the e-mail exists, so the error branch is unreachable |
| Users.CreateUserClerkWebhook | handlers/user.go:143-169 | the webhook's user is inserted iff the e-mail lookup fails and the insert succeeds |
| Users.SetPhone | handlers/user.go:119-124 | only the phone of the first user with the id changes, and the modified count is 1 iff it changed |
| Users.UpdateUserPhone | handlers/user.go:107-133 | unknown user is 404; an equal phone writes nothing and reports 0; otherwise the phone becomes "+1" + input |
| Users.UpdateUserPhoneSettles | handlers/user.go:119-131 | a second update with the same input writes nothing and reports 0 |
| Users.DeleteFirst | handlers/user.go:257-258 | removes exactly the first user with the id, or nothing |
| Users.SweepStep | handlers/user.go:253-268 | one loop iteration extends the filtered prefix by the current user |
| Users.CleanUp | handlers/user.go:241-271 | a find failure is a 404; with test != "false" nothing is deleted and 0 returned; otherwise exactly the "+1undefined" users whose delete succeeds are removed and counted |
| Users.GetUserByIdHandler | handlers/user.go:75-88 | malformed hex is a 400 before any lookup; 404 iff no user has the id; a found user prints as the lower-cased input |
| Planning.TotalCredit | handlers/planning.go:42-47 | the sum of current balances over "credit" accounts; a nil slot panics |
| Planning.TotalPlans | handlers/planning.go:55-63 | the sum of the plans' amounts |
| Planning.GetKpis | handlers/planning.go:29-70 | unknown user is 404; failed accounts are 404; a nil account or failed balance aborts; a plan failure is a 500; otherwise a success carrying the credit sum, the first depository current balance or 0, and the plan sum |
| Planning.NameTable | handlers/planning.go:122-125 | the name table has exactly the accounts' ids as keys; a nil slot panics |
| Planning.LastNameWins | handlers/planning.go:122-125 | a name is the official name of the last account with that id |
| Planning.AddMonth | handlers/planning.go:136-148 | adding a month keeps every series 12 long and adds exactly the month's ids |
| Planning.AllIdsMembership | handlers/planning.go:134-149 | the series ids are exactly the ids seen in any month |
| Planning.ColumnStep | handlers/planning.go:143-146 | month idx writes only slot idx+1 of its series |
| Planning.ColumnOfUnseen | handlers/planning.go:143-146 | an id seen in no month has an all-zero column |
| Planning.BuildSeries | handlers/planning.go:134-149 | a failure is a panic; a success has one twelve-slot series per id, stored under that id |
| Planning.BuildSeriesIsExpected | handlers/planning.go:134-149 | reshaping succeeds iff no non-empty month index reaches 11, and equals the reference series (one per id, slot 0 never written, name from the table or the id) |
| Planning.GetWaterfall | handlers/planning.go:110-158 | unknown user is 404; failed accounts or a failed waterfall are a 500; a nil account or a month longer than a year aborts; otherwise a success with the reference series over the planner's months and the accounts' name table |
| Notification.GroupActions | handlers/notification.go:40-47 | grouping succeeds iff there are no more actions than user ids; otherwise it panics |
| Notification.AddToBucketsTotal | handlers/notification.go:41-47 | adding an amount to a user's buckets raises their total by exactly that amount |
| Notification.GroupActionsAmounts | handlers/notification.go:40-47 | each (user, account) bucket holds the sum of the amounts of its actions |
| Notification.GroupActionsBuckets | handlers/notification.go:40-47 | a user has a bucket for an account iff some action pairs them |
| Notification.GroupActionsUsers | handlers/notification.go:40-47 | a user has a group iff some action belongs to them |
| Notification.GroupActionsTotals | handlers/notification.go:40-55 | a user's total is the sum of all their actions' amounts |
| Notification.GroupActionsDistinctUsers | handlers/notification.go:40-47 | each user has at most one group |
| Notification.NotifiedUsers | handlers/notification.go:40-51 | the grouped users are exactly the users of the actions |
| Notification.ChooseHeadline | handlers/notification.go:67-71 | the "missing" message is chosen iff the balance is below the total, with the shortfall |
| Notification.AccountName | handlers/notification.go:72-81 | the line names the first account with the id, or "" if none; a nil slot first panics |
| Notification.Lines | handlers/notification.go:72-81 | one line per bucket, in order, with its amount and account name |
| Notification.Compose | handlers/notification.go:51-81 | a notice carries the user's id, total, headline and lines; an account fetch failure is a 500 and the only failure response; with accounts, a failed or missing debit balance (the nil dereference) aborts, and otherwise the handler aborts iff an account-name lookup panics and succeeds iff none does |
| Notification.ComposeAll | handlers/notification.go:51-82 | one notice per group, in order, with the group's user and total |
| Notification.UserById | handlers/utils.go:76-87 | malformed hex fails; otherwise found iff some user has the id |
| Notification.SendAll | handlers/notification.go:84-99 | on success one delivered send result per notice, in order; an SMS error gives the "error sending SMS" 500 |
| Notification.SendAllStops | handlers/notification.go:84-99 | a non-success stops at the first notice not delivered, after every earlier one was |
| Notification.NotifyUsersUpcomingPaymentActions | handlers/notification.go:26-101 | an upcoming-actions failure is a 500; more actions than ids aborts; otherwise a composing failure is passed on, and a composed set of notices is sent, one per user |
| Notification.NotifiedExactlyOnce | handlers/notification.go:40-99 | on success each action user gets exactly one notice, and its total is the sum of that user's amounts |
| Notification.ComposedNotices | handlers/notification.go:51-82 | notices built from distinct groups are distinct, cover exactly the groups' users, and carry each user's total |
| Strings.Index | handlers/utils.go:121 | the result is -1 or a position at which the substring occurs |
| Strings.IndexSpec | handlers/utils.go:121 | Index returns the first occurrence of the substring, or -1 iff it does not occur |
| Strings.IndexIsFirst | handlers/utils.go:124 | an occurrence with none before it is the one Index returns |
| Text.GetPlaidErrorCode | handlers/utils.go:117-128 | as written: reading starts 8 past the marker's index, untested for -1; it succeeds iff that start is within the message and a ", " follows it; the code is followed there by ", " and contains none; any failure is a panic |
| ErrorCodes.GetPlaidErrorCodeSpec | handlers/utils.go:117-128 | the code never contains ", "; with the ", code: " marker it is the text after the marker up to the next ", " |
| ErrorCodes.GetPlaidErrorCodeRoundTrip | handlers/utils.go:117-128 | a message built as prefix + ", code: " + code + ", " + rest yields exactly code |
| ErrorCodes.GetPlaidErrorCodeWithoutMarker | handlers/utils.go:121-127 | without the marker the code is read from position 7 instead of failing |
| ErrorCodes.RateLimitMessageHasNoMarker | handlers/utils.go:121-127 | "429 TooManyRequests, retry" yields "ManyRequests" |
| Text.ErrorCode | handlers/utils.go:117-128 | no marker means no code; with the marker it agrees with the source function |
| ErrorCodes.ErrorCodeRoundTrip | handlers/utils.go:117-128 | the corrected function extracts exactly the code from a well-formed message |
| ErrorCodes.ErrorCodeNeedsMarker | handlers/utils.go:117-128 | the corrected function gives no code for a message without the marker |
| Text.FormatPhoneNumber | handlers/utils.go:130-136 | empty input panics; the result starts with "+", and "+" is prepended iff the first character is not "+" |
| Text.FormatPhoneNumberIdempotent | handlers/utils.go:130-136 | formatting twice equals formatting once |

## Left out

- Provider SDK internals, `renderError` and logging: the Plaid calls are oracles (`Provider`, `Linker`).
- `authorizeAndCreateTransfer` (app/clients/plaid_client.go:571-615): it is an oracle (`Linker.transfer`) returning an optional error; its hard-coded amounts and `[0]` index are not modelled.
- The wall clock: the 90-day window, `CreatedAt`/`UpdatedAt` and the notification date are parameters or absent.
- Redis TTL expiry (the 24-hour lifetime is recorded as `EntryTtlHours` only), the TinyLFU local cache and cross-request races: the cache is a plain map.
- MongoDB driver and cursor mechanics: collections are sequences.
- Fiber response shaping, cookies, templates and the `CreateLinkToken` cookie handler (handlers/plaid.go:14-67): responses are `Success`/`Failure`/`Abort` values with the status and message only.
- The outbound planning, upcoming-actions and SMS HTTP clients (handlers/planning.go:72-108, 160-173; handlers/notification.go:103-141): oracles in `Planner` and `Services`.
- Message text formatting in the notification: a notice keeps the headline and the lines (name and amount), not the rendered SMS text.
- Floating-point rounding and the waterfall's float32 narrowing: amounts are `real`.
- `GetUsersAccountsByEmail` (handlers/accounts.go:17-32) and the `GetUser` handler (handlers/user.go:56-66): thin wrappers over `Identity.GetUserByEmail` and `Queries.GetUserAccounts`.
- `GetUserByClarkId` (app/clients/plaid_client.go:507-520): a `FindOne` by Clerk id, covered by `Seqs.FindOne` inside `Identity.GetUserFromClerkId`.
- `ClerkUserEvent` parsing and `NewDBUser` in the Clerk webhook (handlers/user.go:143-150): the constructed user is a parameter of `Users.CreateUserClerkWebhook`.
- Handlers the model does not cover at all: transactions, payment tasks, payment plans and todos, setup, routing, swagger and shutdown.
- Dates.Parse: every rejection is one `DateParseError` naming the input; Go's distinct `time.Parse` error texts are not modelled.
- Seqs.Filter: its own contract states membership in both directions; multiplicity and order are stated by `Seqs.FilterCounts` and `Seqs.FilterPrefix`.
- Aggregate.Consolidate: its own contract gives the effects and the accumulator prefix only; the result is characterised by `Aggregate.ConsolidateIsConcatenation`.
- Notification.ComposeAll: its contract gives the user and total of each notice, not the lines; `Notification.Compose` states the lines.
- Text.GetPlaidErrorCode: Go's `strings.Index` and slicing count bytes, the model counts characters; on a message without the marker whose first 7 bytes hold non-ASCII text the position 7 differs, so the as-written result is stated for character strings only.
- Planning.BuildSeries and Planning.Column: their own contracts state shape only; the content is stated by `Planning.BuildSeriesIsExpected` and `Planning.ColumnStep`.

## Findings

| source | as written | input that shows it | evidently intended | confidence | as-written member | corrected member |
|---|---|---|---|---|---|---|
| handlers/utils.go:121-127 | the -1 from `strings.Index` when ", code: " is missing is not checked, so reading starts at position 7 (-1 + 8) and runs up to the next ", " | "429 TooManyRequests, retry" yields "ManyRequests" | a message without ", code: " yields no code | not executed | ErrorCodes.RateLimitMessageHasNoMarker | ErrorCodes.ErrorCodeNeedsMarker |

