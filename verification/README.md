# A verified model of the marketplace server

The server keeps accounts, a ledger backed by a Monero wallet, and a paid software
catalogue with upload and download over websockets. This project models its stateful
core in Dafny and proves what its parts rely on. `dafny verify dfyconfig.toml` checks
everything.

## How it is built

The model follows the source file by file.

| module | part of the server |
|---|---|
| `Common` | machine words, byte strings, little-endian integers, small list lemmas |
| `Db` | the typed map over a tree of byte strings (`src/db.rs`) |
| `Frames` | the binary websocket frames, parsed by hand in `src/software.rs` |
| `Uploads`, `UploadHandler`, `UploadRuns` | one upload connection: its step function, the handler object that refines it, whole runs |
| `Catalogue`, `CatalogueIds`, `CacheLog`, `Retries` | any number of creations, upload connections and restarts, interleaved; where upload ids lead; what is left in the cached files; an upload tried again |
| `DownloadStream`, `Downloads`, `DownloadHandler` | sending files, counting downloads, one request |
| `Search`, `SearchOrder` | the bounded search and what it computes |
| `Money`, `Spending`, `SendQueue`, `Balances` | balances, purchases, withdrawals, the send queue, the balance refresh (`src/money.rs`) |
| `FeeLag`, `FeeRuns` | all of these under concurrency: withdrawals, intake, sender, balance updates and handlers, one tree access at a time |
| `WalletRpc`, `DaemonRpc` | bucketing of transfers and batching of requests (`crates/monero_wallet`) |
| `LogBuffer` | the two tasks of the log service (`src/logging.rs`) |
| `Accounts`, `AccountHandlers` | registration, login, cookies, captchas (`src/auth.rs`) |
| `Marketplace` | results across modules |

Code that updates state in place is a class or a method with loops; each method's
postcondition ties its new state to a function of the old one, and the theorems are about
those functions. Protocols with several tasks or callers are state machines whose events
are single tree accesses, and the theorems range over all event sequences.

What the code cannot see is a parameter: blake3, the `zst` file test, UTF-8 decoding,
lower-casing and bincode are functions about which only library promises are assumed
(`LawfulText`, `Lawful`); the wallet's and daemon's answers, clocks, random cookies and the
order in which a hash table or tree is iterated are inputs. A panic inside a connection or
call ends it; as release builds abort on panic (`Cargo.toml:15`), the `Restart` events of
`Catalogue` and `Accounts` cover what is left afterwards. Overflow checks are off
(`Cargo.toml:13`), so `u64` arithmetic wraps (`Common.Wrap`).

## What was found

Several things the code relies on hold only under a condition. For each the code is kept,
an input or a run on which it fails is proved, and the condition is proved too.

* A user can hold a cookie without a money record: a login between the two inserts of a
  registration gets one (`CookieWithoutMoney`), and the unwraps at `src/money.rs:113`, `174`,
  `232` and `src/software.rs:124` then fail. Provided no login looks up an account before its
  money record is in, it never happens (`CookiesAlwaysFunded`).
* A balance refresh permutes users' subaddresses unless the tree visits users in the order of
  their subaddress indices (`AddressesSwap`, `AddressesKeptExactly`).
* A user can be charged for another user's withdrawal, though the wallet reports correctly: a
  second user registers whose name the tree visits first, and two refreshes later is shown the
  first one's transfer (`OthersFeeCharged`). Users are shown, and charged for, no one else's
  transfers if and only if no bucket within the list bears the label of another one within the
  list (`NeverForeignExactly`, `ChargedForOthersExactly`); of two users, if and only if the one
  registered first comes first in the tree (`TwoUsersExactly`). With buckets asked for in the
  order of the subaddresses and an honest wallet nobody is charged too much under any
  interleaving (`InOrderIsHonest`, `HonestNeverOverCharges`).
* Two overlapping registrations of one name both succeed (`BothRegister`), and the record of the
  second is written over the first: purchases, fees and subaddress are gone
  (`ReregistrationResets`). An insertion meets the name taken if and only if another
  registration inserted it since the lookup (`OverwritesExactly`).
* A stale write can drop a booked fee or undo a purchase (`StaleWriteUndercharges`,
  `BatchUndoesPurchase`), and a restart loses accepted withdrawals and the fee of one that was
  sent and not yet booked (`RestartLosesRequest`, `RestartLosesFee`). Fees and purchases of a
  user whose record has met with none of this are exact (`NeverOverCharged`, `PurchasesKept`). An
  event keeps purchases if and only if the copy it writes back has them (`WriteKeepsPurchases`),
  and fees if and only if the copy has them and it is no restart during a booking of the user's
  (`WriteKeepsFees`).
* Two first downloads in one second count once (`SameSecondIsLost`); the count is exact if and
  only if first downloads fall in distinct seconds (`CountIsExact`).
* The algebra in the comment at `src/money.rs:64-68` is off by one at a usual network fee
  (`CommentIsInexact`); at the estimated fee it is exact if and only if the amount has fewer than
  49 odd piconero (`RecoveredFeeRounding`).
* The "lower than 0 after fees" branch is reached for some fees (`NegativeBranchReached`), and
  for exactly which is decided by a comparison at the wrapped minimum (`NegativeBranchExactly`).
* Leftovers of a lost connection stay in the cache in front of the next try's bytes, so the very
  messages that would publish can fail (`LeftoversBlockRetry`); a retry publishes if and only if
  the files hash correctly with the leftovers (`RetryPublishes`, `UploadPublishes`).
* The log buffer's bound of 65,000 bytes and three lines is met if and only if lines of the
  possible lengths can make up 65,000 bytes (`BoundAttained`).

Where code and comments disagree the model follows the code: sizes have an upper bound only
(`src/software.rs:139` says exact), chunks may fill the 65,535-byte buffer
(`src/software.rs:552` says 8192), and ids are stored little-endian, so the tree does not
iterate them numerically.

## Model

| member | source | states |
|---|---|---|
| `Db.Tree.constructor` | src/db.rs:29-31 | a new tree is the empty map |
| `Db.Tree.Get` | src/db.rs:67-77 | lookup through the serialization |
| `Db.Tree.Insert` | src/db.rs:54-65 | a map update; the old value is returned |
| `Db.Tree.Remove` | src/db.rs:42-52 | the key leaves the map; the old value is returned |
| `Db.Tree.GetOrInsert` | src/db.rs:79-93 | returns what is bound afterwards; binds only a missing key |
| `Db.Tree.Contents` | src/db.rs:29-124 | a valid tree of byte strings stands for a finite map from keys to values |
| `Db.Tree.Iter` | src/db.rs:99-109 | iteration yields every pair of the map exactly once |
| `Frames.ParseTail` | src/software.rs:528-550 | the tail loop ends on every input and builds the table the bytes stand for |
| `Frames.OneEntry` | src/software.rs:543-549 | a complete entry is read off whole, its name converted to text |
| `Frames.TailRoundTrip` | src/software.rs:528-550 | an encoded list of checksums and names parses to its table |
| `Frames.TailAppend` | src/software.rs:528-550 | complete entries are read off in front of any bytes; later entries win |
| `Frames.ChecksumCutShort` | src/software.rs:531-541 | a tail ending inside a checksum yields a zero-padded checksum with an empty name |
| `Frames.NameUnterminated` | src/software.rs:543-549 | the last name may lack its NUL |
| `Frames.FileTableLookup` | src/software.rs:526-550 | with distinct checksums every pair is found, and nothing else |
| `Frames.TailNamesNoNul` | src/software.rs:543-549 | whatever the bytes, every parsed name is free of NULs |
| `Frames.HeaderRoundTrip` | src/software.rs:439-573 | every header written out: closed on strings that are not text, an unknown cookie or upload id or an image outside 4 to 1,048,576 bytes; panic above 1280 chunks; otherwise every field comes back |
| `Frames.HeaderCutShort` | src/software.rs:441-524 | a header cut off anywhere before the file names panics at the first missing field, unless an earlier field closes the connection |
| `Frames.AcceptedHeader` | src/software.rs:439-573 | any accepted message has passed all checks and carries NUL-free strings |
| `Frames.ChunkRoundTrip` | src/software.rs:424-435 | chunk headers round-trip |
| `Frames.ChunkOutcome` | src/software.rs:424-435 | of a longer message the first 40 bytes count, a shorter one panics |
| `Frames.RequestRoundTrip` | src/software.rs:760-780 | a download request round-trips, and is accepted iff the cookie is |
| `Frames.RequestOutcome` | src/software.rs:760-780 | any request: the byte behind the cookie and bytes behind the id do not count, strings that are not text panic, a cookie that is not known closes the connection |
| `Frames.ShortRequests` | src/software.rs:755-765 | an empty request closes the connection, one without a NUL or with a short cookie panics |
| `Frames.FileHeaderRoundTrip` | src/software.rs:803-809 | the header sent before each file decodes uniquely |
| `Frames.FileHeaderLayout` | src/software.rs:805-809 | hash, name, NUL and the size's bytes, least significant first, stand in this order |
| `Common.LeDigits` | src/software.rs:427-429 | byte i of a little-endian integer is its i-th digit to the base 256 |
| `Uploads.PromoteKeeps` | src/software.rs:242-297 | checking and moving files keeps every game file hashed to its name; on success all listed files are there |
| `Uploads.PayloadKeeps` | src/software.rs:371-423 | a payload message keeps the byte and chunk accounting and the store invariant |
| `Uploads.FinishKeeps` | src/software.rs:239-318 | finalising keeps the invariants: published items have all their files, hashed |
| `Uploads.MessageKeeps` | src/software.rs:232-580 | no message, whatever its bytes, breaks an invariant or removes an id, a published item or a game file |
| `UploadHandler.Connection.constructor` | src/software.rs:217-232 | the initial locals |
| `UploadHandler.Connection.Receive` | src/software.rs:232-580 | one turn of the loop refines the step function, panics and breaks included |
| `UploadHandler.Connection.ReceivePayload` | src/software.rs:371-423 | the in-place chunk buffer refines the payload step |
| `UploadHandler.Connection.WriteChunk` | src/software.rs:386-422 | append to the cached file, or remove it when a first chunk is not `zst` |
| `UploadHandler.Connection.MoveFiles` | src/software.rs:242-297 | the loop over the file table, in any order, refines the recursive description |
| `UploadHandler.Connection.Finish` | src/software.rs:242-318 | moves the files, then publishes the item |
| `UploadRuns.CachedFilesAreAppended` | src/software.rs:389-405 | on every run, each cached file is its prior content followed by its tagged chunks in order |
| `UploadRuns.FirstChunksTyped` | src/software.rs:407-414 | on every run, the first chunk appended to each file passed the type test and all fit the buffer |
| `UploadRuns.FirstMessage` | src/software.rs:439-573 | which headers close a new connection, which panic, and the session the others begin, with the item of the upload id |
| `UploadRuns.PayloadOutcome` | src/software.rs:371-422 | the outcome of any payload message: panic unless the buffer is empty and 65,535 bytes hold it; close above the item's size; wait if the chunk is not whole; panic and remove on a wrong type; else the file grows |
| `UploadRuns.SplitChunkPanics` | src/software.rs:372-374 | a chunk split over two messages panics at the second |
| `UploadRuns.AllChunks` | src/software.rs:371-436 | a client's chunks are all taken: sizes sum up, the counter counts, files hold the chunks |
| `UploadRuns.PromoteExactly` | src/software.rs:242-297 | moving succeeds iff every file is cached and hashes to its name; then contents move unchanged and leave the cache |
| `UploadRuns.PromoteStops` | src/software.rs:242-297 | moving stops at the first bad file: those before it have moved, a corrupted one has left the cache, no item changes |
| `UploadRuns.UploadPublishes` | src/software.rs:211-582 | a well-formed client upload publishes iff each listed file, leftovers included, hashes to its name; then the item changes in files and creation time only, and the game files hold exactly what was sent; otherwise no item changes |
| `UploadRuns.RejectedImage` | src/software.rs:322-348 | a client upload whose image is not accepted ends closed, with a short announcement it panics; no item and no game file changes |
| `UploadRuns.PublishedHasImage` | src/software.rs:239-348 | on every run a connection has published only if a message announced an image hash and a later one brought an accepted image |
| `CacheLog.CachedFilesInterleave` | src/software.rs:389-405 | in every reachable state of any number of connections a cached file is the chunks appended to it since it was last absent, in order |
| `CacheLog.OwnShare` | src/software.rs:389-405 | of what was appended since a connection was made, its part is its own chunks for the file, in order |
| `CacheLog.SoleWriterAppends` | src/software.rs:389-405 | a file no other connection appends to meanwhile is its prior content followed by the connection's chunks |
| `Retries.RetryPublishes` | src/software.rs:211-582 | after a try that broke off at any chunk, a full retry publishes iff each listed file hashes to its name with the leftovers in front |
| `Retries.LeftoversBlockRetry` | src/software.rs:386-405 | a run of the catalogue in which a retry panics at the end, though the same messages publish into an empty cache |
| `Catalogue.RunKeeps` | src/software.rs:138-200 | the site invariant holds in every reachable state of creations, uploads and restarts |
| `Catalogue.RunGrows` | src/software.rs:242-318 | ids, published items and game files survive every continuation |
| `Catalogue.PublishedFilesVerified` | src/software.rs:270-316 | every file of a published item is stored and hashes to its name, in every reachable state |
| `Catalogue.IdsNeverClash` | src/software.rs:151-197 | keys are below the counter and equal their item's id; no insertion overwrites; upload ids lead to items (counter restart: src/main.rs:79-87) |
| `Catalogue.CounterSteps` | src/main.rs:79-87 | a claim takes one id; a restart goes on behind the largest stored id, or from 0 |
| `CatalogueIds.UploadIdLeads` | src/software.rs:151-197 | in every later state a fresh upload id that is known leads to the item claimed with it, with the request's title, creator and size, and no other upload id leads there |
| `CatalogueIds.OnlyOwnItem` | src/software.rs:300-316 | a message changes no item but, when it publishes, its own, in files and creation time only |
| `Catalogue.UploadLookupSucceeds` | src/software.rs:556-557 | the two unwraps behind an accepted header never fail |
| `Catalogue.UploadsAreBounded` | src/software.rs:371-423 | appended bytes ≤ payload, which is counted exactly, and ≤ the item's size ≤ 10,485,760; chunks ≤ the declared number ≤ 1280 |
| `DownloadStream.SendContent` | src/software.rs:813-831 | the pieces of 1 to 8192 bytes concatenate to the content, however reads fall |
| `DownloadStream.SendFiles` | src/software.rs:786-831 | succeeds iff no file is missing; then the messages decode to every listed file once, byte for byte |
| `DownloadStream.DecodeMessages` | src/software.rs:801-831 | a client recovers hash, name and content of every file, however contents were cut |
| `DownloadHandler.Serve` | src/software.rs:749-881 | files are sent and the download booked exactly for an accepted request of a known item with no file missing; when the connection closes and when it panics |
| `Downloads.DownloadTrees.GetOrInsert` | src/db.rs:79-93 | reading a count may store an empty set but changes no count |
| `Downloads.DownloadTrees.AddToDownloadCount` | src/software.rs:833-852 | inserts into the time-ordered set |
| `Downloads.DownloadTrees.RecordDownload` | src/software.rs:833-881 | first downloads are counted and marked, repeated ones change nothing |
| `Downloads.BooksOk` | src/software.rs:701-719 | download sets have distinct times and users, all marked, and hold the times of first downloads |
| `Downloads.DownloadsStay` | src/software.rs:847-848 | a recorded download stays on record |
| `Downloads.CountIsFirstDownloads` | src/software.rs:833-877 | the count is the number of distinct seconds of first downloads, at most the number of marked users |
| `Downloads.CountIsExact` | src/software.rs:716-719 | the count equals the number of downloaders iff first downloads fall in distinct seconds |
| `Downloads.SameSecondIsLost` | src/software.rs:716-719 | two users in the same second count once |
| `Search.CompareItems` | src/software.rs:890-922 | each comparator is one fixed preorder for the whole scan, though it writes to the tree |
| `Search.WorstOf` | src/software.rs:660-677 | the fold finds the first of the worst |
| `Search.Consider` | src/software.rs:651-685 | one matching item is kept, replaces the worst, or is dropped; panics exactly on unimplemented orders and zero capacity |
| `Search.Report` | src/software.rs:613-627 | results describe the kept items in order, with unchanged counts |
| `Search.SearchSoftware` | src/software.rs:630-696 | for all inputs: too many above 100, panic, or a best selection of min(k, matches) of the matching published items, in ranks and in ids and counts |
| `Search.TopKIsBest` | src/software.rs:651-682 | such a selection in titles, ids and counts: no left-out item has a later id (newest), an earlier id (oldest), more (most downloaded) or fewer downloads (least downloaded) |
| `Search.MatchesAreWanted` | src/software.rs:651 | matches are the published items with the term somewhere in the lower-case title, each as often as scanned |
| `SearchOrder.TopKProfile` | src/software.rs:644-685 | at or above each rank a selection holds min(k, matches there) |
| `SearchOrder.SelectionsAgree` | src/software.rs:644-685 | two selections over any scan orders agree rank for rank |
| `SearchOrder.SortTakeIsTopK` | src/software.rs:644-685 | sort-then-take is such a selection |
| `SearchOrder.ScanRefinesSort` | src/software.rs:644-685 | the scan agrees with sort-then-take rank for rank |
| `SearchOrder.IdOrdersIgnoreScanOrder` | src/software.rs:890-896 | newest and oldest keep the same items in any scan order |
| `SearchOrder.KeptExactly` | src/software.rs:890-896 | an item is kept iff fewer than k matches are better |
| `SearchOrder.TreeOrderIsNotNumeric` | src/db.rs:99-109 | little-endian keys: id 256 precedes id 1 |
| `Money.SpendMoney` | src/money.rs:81-91 | refines the spending function |
| `Money.SpendIsExact` | src/money.rs:63-91 | the returned balance is the balance afterwards, in wrapping arithmetic too; success iff it sufficed; only the amount spent changes |
| `Money.BalanceIsWhatIsLeft` | src/money.rs:63-79 | balance = received − max(booked fees, fees of visible transfers) − spent, where that is not negative |
| `Money.BalanceWraps` | src/money.rs:63-79 | otherwise the same difference modulo 2^64 |
| `Money.FeesAddUp` | src/money.rs:69-74 | the fee of a transfer is (amount + fee) / 49, and fees add up |
| `Money.FreshRecord` | src/money.rs:46-60 | a new record has its subaddress, no transfers, no address and balance 0 |
| `Money.WithdrawalOutcome` | src/money.rs:343-455 | every outcome of a withdrawal has its condition |
| `Money.WithdrawalArithmetic` | src/money.rs:374-471 | queued iff amount and balance reach the minimum and an address is known; sent + fee = amount; 50·sent ≥ 39·amount; never negative |
| `Money.NegativeBranchExactly` | src/money.rs:374-431 | for every fee: some withdrawal is refused as negative iff the wrapped minimum, or the next multiple of 100, is below its own fees |
| `Money.NegativeBranchReached` | src/money.rs:374-431 | a fee and an amount that reach the branch |
| `Money.RecoveredVersusCharged` | src/money.rs:64-75 | recovered fee = charged fee + ⌊odd/49⌋ for any actual fee; equal iff 0 ≤ odd < 49 |
| `Money.RecoveredFeeRounding` | src/money.rs:64-75 | at the estimated fee the excess is 0, 1 or 2, and 0 iff amount mod 100 < 49 |
| `Money.CommentIsInexact` | src/money.rs:64-68 | 50,000,049 piconero at a usual fee: 1,000,000 charged, 1,000,001 recovered |
| `Spending.ShopTrees.NewSoftware` | src/software.rs:72-207 | the creation handler with its error cases, paid before the size check |
| `Spending.CreationOutcome` | src/software.rs:76-149 | every outcome of a creation has its condition; who does not pay changes nothing |
| `Spending.CreationPays` | src/software.rs:124-149 | whoever is not refused pays 4,271,880,000, even for an item that is too large |
| `Spending.CreatedExactly` | src/software.rs:151-197 | the new item is new and is what was asked for, its upload id leads to it, and no other entry changes |
| `Spending.SpentIsCreations` | src/software.rs:119-149 | over any run, spent = 4271880000 × (items created + creations refused as too large) |
| `Spending.BalancesNeverUnderflow` | src/money.rs:76-91 | with deposits and spends alone a balance is exactly deposits less spending |
| `SendQueue.Sender.Intake` | src/money.rs:733-739 | queues a request iff the balance covers it; panics iff the record is missing |
| `SendQueue.Sender.SendPass` | src/money.rs:744-779 | index-with-removal: each request attempted once, in order; failures stay, successes are booked |
| `SendQueue.PassConserves` | src/money.rs:744-779 | pending = failed + sent as multisets |
| `SendQueue.PassOutcome` | src/money.rs:744-779 | exactly the requests whose attempt failed remain and exactly those whose attempt succeeded are sent, with the fee paid, each in order |
| `SendQueue.TakeChecks` | src/money.rs:733-739 | a request off the channel is accepted iff the balance covers it |
| `SendQueue.OneBooking` | src/money.rs:765-769 | a booking adds (amount + fee) / 49 to the sender's fee total and changes nothing else |
| `SendQueue.FailedInOrder` | src/money.rs:744-779 | failures keep their order |
| `SendQueue.CreditAllBooks` | src/money.rs:765-773 | each user's fee total rises by exactly that user's recovered fees; nothing else changes |
| `SendQueue.AcceptedIsSentOrPending` | src/money.rs:723-788 | over any run, accepted = pending + sent, and records change only by the fees of what was sent |
| `FeeLag.FeeSumMonotone` | src/money.rs:69-75 | fees over part of the transfers are at most fees over all |
| `FeeLag.RunOk` | src/money.rs:547-788 | the invariant over every interleaving of registrations, withdrawals, intake, sender, balance updates, purchases, address changes and restarts |
| `FeeLag.NeverOverCharged` | src/money.rs:63-79 | unless a user was shown others' transfers, the fee charged never exceeds the fees of the user's completed transfers; it equals them once all are seen, or while the record has met with no stale write, second registration or restart during a booking |
| `FeeLag.BalanceShown` | src/money.rs:63-79 | a user without mishaps, foreign transfers or open booking sees received − fees of completed transfers − purchases |
| `FeeLag.IntakeChecks` | src/money.rs:733-739 | the intake keeps a request iff the balance covers it |
| `FeeLag.BuyChecks` | src/software.rs:124-133 | an item is bought iff the balance read covers the price; no other user's record changes |
| `FeeLag.HonestNeverOverCharges` | src/money.rs:571-577 | while buckets are labelled in order and hold only their users' transfers, no interleaving overcharges anyone or gives anyone a subaddress not registered for the name |
| `FeeLag.InOrderIsHonest` | src/money.rs:547-577 | buckets asked for in the order of the subaddresses are such, if the wallet reports of each subaddress only what was sent |
| `FeeLag.PurchasesKept` | src/money.rs:81-91 | under every interleaving, amount spent = purchases made, for a user whom no stale write and no second registration has hit |
| `FeeLag.WriteKeepsPurchases` | src/money.rs:765-773 | each event keeps a user's purchases iff the copy or new record it writes, if any, has them all |
| `FeeLag.WriteKeepsFees` | src/money.rs:765-773 | in every reachable state each event keeps a user's fees exact iff the copy or new record it writes, if any, has them all and it is no restart during a booking of the user's |
| `FeeLag.AcceptedOnce` | src/money.rs:723-788 | under every interleaving, accepted = pending + sent + lost to restarts as multisets when no booking is under way |
| `FeeRuns.StaleWriteUndercharges` | src/money.rs:765-773 | for every possible withdrawal some run ends charging nothing for it |
| `FeeRuns.BatchUndoesPurchase` | src/money.rs:552-640 | for every user who can pay, some run of a balance refresh undoes the purchase |
| `FeeRuns.ReregistrationResets` | src/auth.rs:238-241 | for every user who can pay, some run of a second registration undoes the purchase and changes the subaddress |
| `FeeRuns.RestartLosesRequest` | src/money.rs:726-739 | for every possible withdrawal some restart loses it after it was accepted |
| `FeeRuns.RestartLosesFee` | src/money.rs:758-773 | for every possible withdrawal some restart leaves it sent and never charged for |
| `FeeRuns.OthersFeeCharged` | src/money.rs:571-577 | whenever another name sorts first, some run with correct reports charges the fee of a possible withdrawal to the user of that name |
| `LogBuffer.LogService.AppendLine` | src/logging.rs:86-97 | appends a line under the lock and blocks when the string is long |
| `LogBuffer.LogService.ReceiveLog` | src/logging.rs:85 | the next line is in hand |
| `LogBuffer.LogService.ForceWrite` | src/logging.rs:93-97 | the token goes into the channel once there is room |
| `LogBuffer.LogService.Select` | src/logging.rs:71-76 | the flusher wakes by token or timer |
| `LogBuffer.LogService.Flush` | src/logging.rs:78-81 | lock, write, clear |
| `LogBuffer.NothingLost` | src/logging.rs:53-99 | for every interleaving file and string hold every appended line once, in order |
| `LogBuffer.BufferBounded` | src/logging.rs:65-98 | the string never exceeds 65,000 + 3·L bytes for lines of at most L |
| `LogBuffer.BoundAttained` | src/logging.rs:65-98 | with logs of all lengths from m to L, the bound is attained iff some number of logs makes up 65,000 bytes |
| `LogBuffer.FlushIsNear` | src/logging.rs:65-98 | from every reachable state four flusher steps write everything out and free the appender |
| `Accounts.InvalidUserReason` | src/auth.rs:602-612 | an admitted name is alphanumeric and 4 to 50 bytes long |
| `Accounts.NameRefused` | src/auth.rs:602-612 | each reason for refusing a name has its condition, in order: length, characters, the four reserved names |
| `Accounts.PasswordDecides` | src/auth.rs:614-628 | after a registration, a login of the name with a right captcha succeeds iff both passwords hash alike behind the salt; where the hash tells them apart, iff they are equal |
| `Accounts.LoginNeedsPassword` | src/auth.rs:320-347 | in every reachable state the same with the account in force, the one inserted last for the name |
| `Accounts.RegistrationSets` | src/auth.rs:200-238 | a registration stores its salt and the hash of its password behind it |
| `Accounts.CaptchaLives` | src/auth.rs:533-546 | a captcha is swept after five minutes and not before |
| `Accounts.CookieLives` | src/auth.rs:383-397 | a cookie is swept after ninety days and not before |
| `Accounts.CaptchaUsedOnce` | src/auth.rs:167-183 | over any interleaving, calls let through by a captcha ≤ its insertions (also login, src/auth.rs:297-313) |
| `Accounts.CookiesAreFunded` | src/auth.rs:238-243 | cookies and money records belong to accounts; a cookie lacks money only between the two inserts |
| `Accounts.CookiesAlwaysFunded` | src/auth.rs:370-402 | provided logins only see funded accounts, cookies ⊆ money records always |
| `Accounts.CookieWithoutMoney` | src/auth.rs:238-243 | for every registrable name some interleaving gives a cookie without a money record |
| `Accounts.RegisterAlone` | src/auth.rs:95-259 | the registration steps, undisturbed, do what a registration should, in all outcomes |
| `Accounts.LoginAlone` | src/auth.rs:262-368 | the login steps, undisturbed, do what a login should, in all outcomes |
| `Accounts.OverwritesExactly` | src/auth.rs:107-238 | a registration between lookup and insertion meets its name taken iff another one inserted it since the lookup |
| `Accounts.BothRegister` | src/auth.rs:107-243 | two overlapping registrations of any free valid name both succeed; the one that inserts last owns account and cookie |
| `Accounts.OnlyLastCookie` | src/auth.rs:592-600 | over any interleaving, the cookie check accepts exactly the cookie issued to the user last, until it is swept |
| `Accounts.RequestsParse` | src/auth.rs:377-381 | a cookie holder's download request parses back to name, cookie and id |
| `Accounts.CredentialsSendable` | src/auth.rs:602-612 | registered names and generated cookies are NUL-free text |
| `AccountHandlers.AccountTrees.TakeCaptcha` | src/auth.rs:167-183 | a right answer uses the captcha up, a wrong one does not |
| `AccountHandlers.AccountTrees.GenerateAuthCookie` | src/auth.rs:370-402 | a cookie for an existing account, valid for ninety days |
| `AccountHandlers.AccountTrees.Register` | src/auth.rs:95-259 | every outcome has its condition; the whole new state |
| `AccountHandlers.AccountTrees.Login` | src/auth.rs:262-368 | every outcome has its condition; the whole new state |
| `AccountHandlers.AccountTrees.DestroyExpiredAuthCookies` | src/auth.rs:487-514 | exactly the expired cookies go |
| `AccountHandlers.AccountTrees.DestroyExpiredCaptchas` | src/auth.rs:642-664 | exactly the expired captchas go |
| `WalletRpc.SortIncoming` | crates/monero_wallet/src/wallet_rpc.rs:243-253 | incoming transfers into buckets; panics iff one has index 0 |
| `WalletRpc.SortOutgoing` | crates/monero_wallet/src/wallet_rpc.rs:255-267 | outgoing transfers into buckets; index 0 is skipped |
| `WalletRpc.SortTransfers` | crates/monero_wallet/src/wallet_rpc.rs:236-269 | bucket j holds the transfers of index j+1 in order under the label asked for |
| `WalletRpc.SelectExactly` | crates/monero_wallet/src/wallet_rpc.rs:241-267 | each transfer is selected as often as it was reported |
| `WalletRpc.SelectInOrder` | crates/monero_wallet/src/wallet_rpc.rs:249-267 | a bucket holds what stands at its subaddress's places of the report, in order |
| `WalletRpc.BucketsAndDropped` | crates/monero_wallet/src/wallet_rpc.rs:241-267 | bucket sizes plus dropped transfers give the input size |
| `WalletRpc.LabelledExactly` | crates/monero_wallet/src/wallet_rpc.rs:236-267 | a bucket's label fits iff it is empty or the index asked for is its place |
| `Balances.Updater.UpdateAccBalances` | src/money.rs:547-640 | one round refreshes every record, or panics without writing |
| `Balances.RefreshAddsUp` | src/money.rs:571-620 | balance and pending balance add up to the wallet's total of the bucket's label; without an answer both stay, and fees, spending and address always do |
| `Balances.AddressesKeptExactly` | src/money.rs:563-577 | a round keeps all subaddress indices iff the tree iterates users in index order |
| `Balances.OwnTransfers` | src/money.rs:563-610 | then each user gets exactly the user's own transfers and balance |
| `Balances.RoundsKeepAddresses` | src/money.rs:547-640 | then any number of rounds keeps the indices |
| `Balances.AddressesSwap` | src/money.rs:692-706 | otherwise one round can swap two users' addresses and balances |
| `Balances.NeverForeignExactly` | src/money.rs:547-640 | over all rounds and reports users are shown only their own subaddress's transfers iff no bucket within the list bears the label of another one within the list |
| `Balances.ChargedForOthersExactly` | src/money.rs:547-640 | over all rounds and reports no user who sent nothing is charged, iff no bucket within the list bears the label of another one within the list |
| `Balances.InOrderNeverCharged` | src/money.rs:547-640 | in particular when the tree iterates users in index order |
| `Balances.TwoUsersExactly` | src/money.rs:555-577 | of two users no one is ever charged for the other iff the one registered first comes first in the tree |
| `Balances.OthersFeeShown` | src/money.rs:571-577 | two rounds after which a user is charged for a correctly reported transfer of another |
| `DaemonRpc.SlicesCover` | crates/monero_wallet/src/daemon_rpc.rs:190-211 | slices of 1 to 100, ⌈n/100⌉ of them, concatenating to the input |
| `DaemonRpc.FullSlices` | crates/monero_wallet/src/daemon_rpc.rs:194-200 | all slices but the last hold a hundred |
| `DaemonRpc.AnsweredInOrder` | crates/monero_wallet/src/daemon_rpc.rs:226-243 | answers are joined in the order of the requests |
| `DaemonRpc.TransactionsByHashes` | crates/monero_wallet/src/daemon_rpc.rs:181-245 | the requests made are those slices, up to the first failure; answers are joined in order |
| `Marketplace.DownloadsAreVerified` | src/software.rs:786-831 | in every reachable state any item downloads, and every received file hashes to its listed name |
| `Marketplace.UploadThenDownload` | src/software.rs:211-582 | a download after an upload delivers the client's names and the client's chunks joined in order |
| `Marketplace.RanksIgnoreTreeOrder` | src/software.rs:644-685 | searches of a reachable catalogue agree rank for rank in any iteration order |
| `Marketplace.SearchIgnoresTreeOrder` | src/software.rs:890-896 | newest and oldest keep the same items in any iteration order |

## Left out

- HTTP, websocket, JSON and RPC transport, retries of requests, status codes and the text of log lines.
- blake3, the `zst` test, UTF-8, lower-casing, bincode and random generation are uninterpreted; no strength of the hash is claimed.
- The image upload's inner loop (src/software.rs:322-342): whether the image is accepted is an input.
- `todo!()` branches (other search orders, too many chunks) are panics and nothing more.
- Solvency of withdrawals: the gate at src/money.rs:405 compares with the minimum and queued requests reserve nothing, so the code does not give it.
- Durability of sled across crashes: a restart keeps every completed write. HTTP calls of the wallet that a restart cuts off are not modelled.
- `server_profits`, the `view_*` endpoints, parsing of addresses, `Wallet` connection handling.
- `start_index` of a search request, which the handler ignores.
- The id counter is unbounded; its 64-bit wrap-around is not modelled.
- The captcha sweep panics if a call removed the entry first; the model lets it stand still there.
- Uploads.PromoteKeeps: hashing and copying one file is one step, so an append by another connection between the two is not modelled.
- Uploads.FinishKeeps: finalising is one step, so file-system races between two uploads of one hash are not modelled.
- Uploads.MessageKeeps: takes the acceptance of the image as an input and finalising as one step.
- UploadHandler.Connection.Receive: takes the acceptance of the image as an input.
- UploadHandler.Connection.MoveFiles: reading a cached file for hashing is taken as reading it whole.
- UploadHandler.Connection.Finish: no other writer acts between the moves and the publication.
- UploadRuns.CachedFilesAreAppended: is about one connection by itself; CacheLog has the statements for any number of connections.
- UploadRuns.UploadPublishes: no other connection writes between the client's messages.
- Retries.RetryPublishes: no other connection writes between the two tries.
- Catalogue.RunKeeps: a connection's finalisation is one event.
- Catalogue.PublishedFilesVerified: hash check and copy happen in one event.
- DownloadHandler.Serve: reads one snapshot of the trees, and books in one step.
- Downloads.BooksOk: bookings are atomic, so updates lost between two simultaneous downloads are not modelled.
- Downloads.CountIsFirstDownloads: bookings are atomic.
- Downloads.CountIsExact: bookings are atomic.
- Search.SearchSoftware: scans a snapshot of the software tree; writes by other handlers during one scan are not modelled.
- Spending.ShopTrees.NewSoftware: payment and item creation are one step here; interleaved payments are in FeeLag, interleaved insertions in Catalogue. The captcha is an input: the handler checks but does not use it up.
- Spending.SpentIsCreations: handlers run one at a time; FeeLag.PurchasesKept is the statement for interleaved ones.
- Spending.BalancesNeverUnderflow: handlers run one at a time.
- SendQueue.AcceptedIsSentOrPending: no other writer touches the records during the run and there are no restarts; FeeLag.AcceptedOnce is the statement for interleaved writers and restarts.
- FeeLag.NeverOverCharged: supposes that a user's fees sum to less than 2^64.
- FeeLag.RunOk: names are any byte strings; which can be registered is in Accounts. Between insertion of the account and of the record a further lookup is refused by the source and allowed here.
- FeeLag.HonestNeverOverCharges: one direction; a run may take a mislabelled bucket and still overcharge no one. The exact condition over rounds is Balances.NeverForeignExactly.
- Balances.RoundsKeepAddresses: a round asks the wallet and refreshes the records in one go; in the source two tasks do this, and users registered in between are not modelled.
- Balances.NeverForeignExactly: rounds as for Balances.RoundsKeepAddresses, over a fixed set of users.
- Balances.ChargedForOthersExactly: the same.
- Balances.TwoUsersExactly: the same.
- Accounts.CookiesAreFunded: the part about money records is stated between restarts, because a crash between the two inserts leaves an account without one.
- Accounts.CookiesAlwaysFunded: one direction only; a login that sees an unfunded account may still be refused or overtaken, so the converse is false, and CookieWithoutMoney shows the failing family instead.
- LogBuffer.FlushIsNear: progress is stated as reachability by the flusher's own steps; fairness of the runtime is not modelled. Internal buffering of the log file is left out.
- Marketplace.DownloadsAreVerified: relies on finalisation being one event.
- Marketplace.UploadThenDownload: no other connection writes between upload and download.
