# A verified model of the LiveQX server core

LiveQX is a playout server. This project models the parts of it whose correctness is hard to see
by reading one function, and proves what they keep over every input and every run:

- **the tamper-evident audit trail** (`FlatJson`, `AuditTypes`, `AuditChain`, `HashChain`, `AuditStore`,
  `AuditForetold`, `AuditDb`): rows signed with a keyed MAC over the previous MAC and a canonical JSON
  text, single and batched inserts, the stored cursor, purges, restarts, key changes, and the rescan;
- **the audit writer** (`AuditPipeline`, `AuditRuns`, `AuditLogger`): producers, a batching writer thread,
  the emergency file and shutdown as one concurrent system;
- **master-key rotation** (`Resealing`, `KeyRotation`, `AuthCli`): staged, all-or-nothing, with every
  failure exit;
- **the token-bucket limiter** (`RateLimiter`), **the JSON diff** of audit details (`JsonDiff`), **the
  query builder** of the audit list (`Sql`, `AuditQuery`, `AuditList`, `AuditPages`) and **the filter of
  live hints** (`SseFilter`);
- **smaller stateful cores**: the AAC sample accumulator (`AudioEncoder`), the log tail (`LogTail`), the
  editor of a person's rights (`PlayerGrants`), the erasure of a user (`AuthDb`), the stream limiter
  (`StreamLimiter`) and the channel registries (`ChannelManager`).

`Wrappers`, `Numbers`, `Sorting`, `Decimal`, `Hex` and `Utf8` hold what several of them use.
`dafny verify dfyconfig.toml` checks everything.

## How it is built

Code that changes state step by step is a class with methods, each proved equal to a specification
function of the old state; the theorems are lemmas about those functions and about runs of them.
Failures of SQLite, the file system, the clock and other threads are parameters, among them reads that
come back empty or short, so every statement holds for every way they can go. A JSON dump throws on a text
that is not UTF-8 (RFC 3629); which texts those are is defined in `Utf8`, and the exception is an outcome
of the operations of the audit trail, of its writer and of the log tail. The audit writer is a state
machine whose steps are the sections under one lock and the single updates of an atomic; a run is any
interleaving. Committing rows and saving the cursor are one step of the audit database, with a flag for
whether the save happened; so a crash between the two is an append without its save, followed by a restart.

The MAC and the fingerprint hash are arbitrary functions, never assumed injective: statements that need
them to be say "or these messages exhibit a collision", and name the messages. Encryption is symbolic:
a blob opens under the one key it was sealed with. A key is identified with its fingerprint. Numbers the
code keeps in `double` are reals, and 64-bit integers are unbounded; an SQL integer read into a C `int`
is truncated as the code does it.

## What the proofs turned up

Where the code and its comments differ, the model follows the code.

- `AuditDb.cpp:325` speaks of insertion order; the default JSON object dumps its keys sorted. Only that
  the text is canonical matters (`AuditChain.MessageSays`).
- `AuditDb.h:85` says gaps left by purges are tolerated. Only a gap at the head of the table is; any
  other, directly before a row of the current key, is reported (`AuditStore.PurgedRunVerdict`,
  `AuditForetold.RunForetold`).
- The scan never compares the newest row with the stored cursor, so rows may be cut off either end
  (`HashChain.EndsMayBeCut`), takes rows of other keys on trust (`HashChain.ForeignLinksTrusted`), and
  the signature covers the category text only up to how it is read (`AuditChain.CategoryTextProtected`).
- Texts are bound and read as C strings, while the MAC covers them whole. An event with a NUL in any text,
  such as the user name of a failed login, is stored cut and never re-derives, and the scan stops at its
  row from then on (`AuditChain.SignedIsRederived`, `AuditStore.NulBreaksTheTrail`,
  `AuditStore.TrailVerifiesIff`). A filter text is cut in the same way: `action=x%00y` lists the action x
  (`AuditQuery.StoredEventMatches`).
- Whether the cursor could be saved or the tail looked up is ignored by the callers. A restart after a lost
  save finds an old tail, one whose lookup fails finds none, and the next row breaks the chain
  (`AuditStore.TailHeld`, `AuditStore.TailThenInsert`).
- With no key loaded, or when the scan cannot be prepared, the verification answer is "ok", since only
  `first_bad_id` is looked at; and a scan cut short by an error reports like one that reached the end
  (`AuditDb.AuditDb.VerifyChain`).
- A successful spill over the hard cap is counted nowhere (`AuditLogger.cpp:117-122`); the statistics
  fall short by exactly those and the events an exception took (`AuditRuns.StatsShortBySpills`).
- A JSON dump throws on invalid UTF-8, and a path such as `/api/%FF` puts such a byte into an audit event
  (`AuditDb.ForeignPath`). Nothing between the dump and the writer thread catches the exception, so one
  such event ends the process with the batch and the queue (`AuditRuns.OneEventEndsIt`); every event is in
  exactly one place if and only if no drain, spill or synchronous write came to one
  (`AuditRuns.ExactlyOnce`). The live log tail ends in the same way (`LogTail.TailSplitsTheLog`).
- A rotation takes a secret whose SELECT fails, and all of a mounts.db that is not found, for one that is
  not there (`AuthDb.cpp:1093-1110`, `MountsDb.cpp:168-181`). Such a secret stays under the old key in a
  rotation reported as done (`KeyRotation.DoneMeans`), and a second run after a failed backup that cannot
  read the secrets clears the staged key they alone are sealed with, with no report
  (`KeyRotation.BlindRerunHappens`).
- The removal of an object or a group drops rights without the lock the editor of rights holds, so a
  replacement accepted just before it puts them back (`PlayerGrants.DropIsOverwritten`); and since a failed
  SELECT reads as no rights, an author can replace rights he was never shown
  (`PlayerGrants.FailedReadPasses`).
- When the device CA cannot be put back after a failed rotation, the files left readable are the ones
  the message lists as not rolled back, and the others are stranded with the staged key
  (`KeyRotation.CaStranded`). A second run after a failed commit gets past the checks
  only if it sees no secret the first one saw, and then strands the device CA exactly when it clears the
  staged file (`KeyRotation.RerunRefuses`, `KeyRotation.RerunStrandsCa`).
- `AuditRateLimiter.h:16-18` describes buckets that fill up and are collected. With a burst of at least
  one no bucket is ever full between calls, so nothing is collected
  (`RateLimiter.NothingIsEverEvicted`). Calls less than a millisecond apart keep a bucket from ever
  refilling (`RateLimiter.CrowdedNeverRefills`).
- In the bare result of jsonDiff a value is redacted only for the key it is directly under, so an object
  with a password inside, added under an ordinary key, is in it whole (`JsonDiff.DiffTellsNoSecret`,
  `JsonDiff.AddedObjectTells`). What keeps the promise of `AuditPayload.h` for the trail is that every
  caller's payload is redacted once more as a whole (`JsonDiff.StoredHasNoSecrets`), which leaves of a
  change under a sensitive key the mark alone (`JsonDiff.StoredEntry`).
- The audit list repeats the limit that was asked for, not the clamped one; a reader that steps by it
  misses rows above 1000 (`AuditPages.SteppingByTheAskedLimit`).
- The device port announces a player's renewal without its place, while the row is stored with it, so who
  may read the audit of that place is not told of it; the rows of bulk commands and of the certificate
  watch (`main.cpp:1656-1666`) are announced to nobody (`SseFilter.ReadersAgree`,
  `SseFilter.RenewalGoesUnheard`). Requests announce the place they store (`SseFilter.RequestsAgree`).
- `user_player_grants.granted_by` is no foreign key and may name an erased user
  (`AuthDb.GranterMayDangle`).
- Removing a channel deletes the folder it lives in, and two live channels can share one. That happens
  exactly when the disk held, at the start, a folder that loads one channel and bears a name create would
  give to another, as after renaming a folder by hand (`ChannelManager.RemovalTakesAnothersFolderIff`).

## Model

| member | source | states |
|---|---|---|
| Hex.RoundTrip | src/audit/AuditDb.cpp:115-143 | reading the hex text of a blob back gives the blob, for every blob |
| Hex.ToHex | src/audit/AuditDb.cpp:115-124 | two lower-case digits for each byte, high nibble first |
| Hex.FromHex | src/audit/AuditDb.cpp:126-143 | an odd length or any character that is no hex digit gives the empty blob; otherwise the bytes |
| Hex.DecodedMeans | src/audit/AuditDb.cpp:126-143 | a text of an even number of the sixteen digits, in either case, reads as one byte for each two, the high half first; any other as nothing |
| FlatJson.TextRead | src/audit/AuditDb.cpp:324-358 | the dump of a flat object can be read back, so different objects have different texts |
| FlatJson.TextIs | src/audit/AuditDb.cpp:324-358 | the accumulating writer gives the members in order, each a quoted name, a colon and the value, commas between them and braces around |
| FlatJson.FramingOnce | src/audit/AuditDb.cpp:360-400 | if two previous MACs followed by a dump are the same bytes, the MACs and the dumps are the same: the unseparated concatenation is read in one way |
| AuditTypes.ColumnsRead | src/audit/AuditDb.cpp:402-427 | a stored event is read back, in the current format, with each text up to its first NUL: whole if and only if none of its texts holds a NUL |
| AuditTypes.RowIsDumpable | src/audit/AuditDb.cpp:402-427 | an event whose texts can be dumped comes back from its row with texts that can be: cutting UTF-8 at a NUL leaves UTF-8 |
| AuditTypes.CStrMeans | src/audit/AuditDb.cpp:402-427 | what is kept of a text is all up to its first NUL, or all there is |
| Utf8.NoForeignByte | src/audit/AuditDb.cpp:357 | a text that can be dumped holds none of the bytes C0, C1 and F5 to FF |
| Utf8.ValidMeans | src/audit/AuditDb.cpp:357 | the texts that can be dumped are exactly the encodings of sequences of Unicode scalar values |
| AuditChain.TextNames | src/audit/AuditDb.cpp:324-358 | read back as JSON, the signed text holds under each of its 16 names the field of that name, the two places under theirs from formats 1 and 2 on, no other name, and the names in strictly ascending byte order |
| AuditChain.DumpableMeans | src/audit/AuditDb.cpp:357 | the dump of an event throws exactly when some text in the canonical object is not UTF-8 |
| AuditChain.MessageMeans | src/audit/AuditDb.cpp:360-400 | a message is the bytes of the previous MAC followed by the canonical text: in format 2 when signed, in the row's own format when verified |
| AuditChain.MessageSays | src/audit/AuditDb.cpp:324-358 | two signed messages are equal if and only if the previous MACs, the formats and every field signed in that format are: no confusion between formats 0, 1 and 2 |
| AuditChain.AuditSignerSound | src/audit/AuditDb.cpp:360-435 | a message, signed or re-derived, fixes the previous MAC in front of it, and of all events exactly those without a NUL are re-derived as they were signed |
| AuditChain.SignedIsRederived | src/audit/AuditDb.cpp:360-427 | the message signed for an event is the one the scan re-derives from its row if and only if no text of the event holds a NUL |
| HashChain.ChainExtends | src/audit/AuditDb.cpp:360-435 | a link signed over the tail keeps the log a chain |
| HashChain.MacsDistinct | src/audit/AuditDb.cpp:360-435 | no two positions of one chain carry the same MAC, or some two of its messages collide |
| HashChain.FollowsInLog | src/audit/AuditDb.cpp:790-826 | a link chained to the MAC of position p of the log is position p + 1 |
| HashChain.ChainedIsClean | src/audit/AuditDb.cpp:744-833 | a log read back as it was signed is clean under every key, used in it or not |
| HashChain.ReportUnique | src/audit/AuditDb.cpp:744-833 | one table has one report |
| HashChain.ScanSound | src/audit/AuditDb.cpp:744-833 | if the scan is clean and every current-key MAC in the table was issued, each run of current-key links is a contiguous, in-order, unchanged piece of the log, or the MAC collides |
| HashChain.SurvivorsJudged | src/audit/AuditDb.cpp:800-826 | of the survivors of a log, read back as they may have changed, the scan flags exactly those of the current key: prev_mac_mismatch directly after a hole, mac_mismatch where the message read is not the one signed, or the MAC collides |
| HashChain.ForeignLinksTrusted | src/audit/AuditDb.cpp:790-800 | of a link of another key the scan uses nothing but the stored MAC |
| HashChain.EndsMayBeCut | src/audit/AuditDb.cpp:744-833 | cutting links off either end of a clean table leaves it clean |
| AuditChain.CleanScanFaithful | src/audit/AuditDb.cpp:744-833 | the same soundness for rows: key, MACs and every field signed are those of the rows appended and the events they were signed for |
| AuditChain.UnsignedEdit | src/audit/AuditDb.cpp:324-358 | an edit of a row outside what its format signs leaves every verdict as it was |
| AuditChain.CategoryTextProtected | src/audit/AuditDb.cpp:324-358 | two category texts are told apart by the signature if and only if they read as different categories |
| AuditStore.RunTracks | src/audit/AuditDb.cpp:256-538 | over every run of inserts, batches, failures, purges, restarts and key changes that had the right tail in memory at each append: the log is the chained record of exactly the events given, the table is what survives of it |
| AuditStore.TailHeld | src/audit/AuditDb.cpp:256-322 | which restarts lose the tail: it is right if and only if nothing was appended yet, or there was no restart since the last append, or the last lookup read a cursor whose last save had worked, or found none and read the newest row, which no purge had taken; or the MAC collides |
| AuditStore.FaultlessIsSteady | src/audit/AuditDb.cpp:256-296 | while every cursor is saved and read back, the tail is right at every point of every run, purges or not |
| AuditStore.SteadyMeans | src/audit/AuditDb.cpp:256-538 | whether any run had the right tail at every append can be read off its steps: which saves and lookups worked and which purges reached the newest row |
| AuditStore.TrailVerifiesIff | src/audit/AuditDb.cpp:256-833 | a trail under one key without purges verifies if and only if no event given holds a NUL in a text and at every append the saves and lookups before it had left the right tail, or the MAC collides |
| AuditStore.RunIsClean | src/audit/AuditDb.cpp:744-833 | after any such run without purges, under any keys, the rows are the events given in order and the scan under a key is clean if and only if no event signed under that key holds a NUL; otherwise it stops with mac_mismatch at the first that does; or the MAC collides |
| AuditStore.NulBreaksTheTrail | src/audit/AuditDb.cpp:402-427 | the concrete case: one event with a NUL in the user name, and the scan stops at its row |
| AuditStore.PurgedRunJudged | src/audit/AuditDb.cpp:726-833 | after any such run with purges and several keys the scan flags exactly the current-key rows with a hole directly before them and, of the others, those whose event does not come back as it was signed |
| AuditStore.PurgedRunVerdict | src/audit/AuditDb.cpp:726-833 | with one key: clean if and only if the survivors are contiguous in the log and hold no NUL, otherwise it stops at the first that follows a hole (prev_mac_mismatch) or holds a NUL (mac_mismatch) |
| AuditForetold.RunForetold | src/audit/AuditDb.cpp:256-833 | for every run there is, with purges, lost tails, failures and changed keys in any order: the verdict under any key, with the number scanned, the reason and the id, is the one its steps foretell, computed from positions alone, or the MAC collides |
| AuditForetold.VerdictFromMeans | src/audit/AuditDb.cpp:744-833 | the foretold verdict: clean if and only if no survivor of that key was signed after another row than the survivor before it (or that row's twin) or holds a NUL; otherwise the first that does, the wrong predecessor first |
| AuditForetold.RunFollows | src/audit/AuditDb.cpp:256-538 | every run leaves exactly the rows its steps name, in order, each signed with the key then in use after the row then taken for the newest, with the right tail and cursor |
| AuditForetold.TwinsMeans | src/audit/AuditDb.cpp:360-435 | two rows of any run carry one MAC if and only if they say the same under the same key after rows of which that holds, or the MAC collides |
| AuditStore.BatchIsInserts | src/audit/AuditDb.cpp:437-538 | a batch that succeeds ends in the same table, cursor and tail as its events inserted one by one |
| AuditStore.TailThenInsert | src/audit/AuditDb.cpp:360-435 | with any tail in memory, a clean single-key table stays clean through the next insert if and only if the tail is the newest row's MAC and the new row re-derives it |
| AuditStore.RunScanFaithful | src/audit/AuditDb.cpp:744-833 | whatever was done to the table after such a run: clean and issued MACs mean that each current-key stretch is a contiguous piece of what the run was given and says what the events said, or the MAC collides |
| AuditDb.AuditDb.LoadChainTail | src/audit/AuditDb.cpp:256-282 | the cursor's bytes; if it is missing, unreadable, empty or no hex, the newest row's MAC if that can be read; nothing if the lookup cannot be prepared |
| AuditDb.AuditDb.SaveChainTail | src/audit/AuditDb.cpp:284-296 | the cursor is the hex text of the tail, or, if the write fails, what it was |
| AuditDb.AuditDb.Open | src/audit/AuditDb.cpp:298-322 | the first open that succeeds loads the tail, whatever becomes of the lookup; otherwise nothing changes |
| AuditDb.AuditDb.Insert | src/audit/AuditDb.cpp:360-435 | throws exactly if open and keyed and a text of the event is not UTF-8; succeeds exactly if it does not throw and SQLite works, and is then the one-row append of the whole event's signature and its cut columns, under the next id and with the event's own time if it has one, with or without the cursor saved; otherwise changes nothing |
| AuditDb.AuditDb.InsertBatch | src/audit/AuditDb.cpp:437-538 | all rows appended in order; or on a fault at any point none and everything as it was; or, when it gets as far as an event that cannot be dumped, an exception that leaves the rows before it in a transaction nobody ends |
| AuditDb.AuditDb.PutRows | src/audit/AuditDb.cpp:464-522 | the loop of the transaction: the rows one after the other, each signed over the one before, or whichever comes first of the row that fails and the event whose dump throws |
| AuditDb.AuditDb.EndOfProcess | src/audit/AuditDb.cpp:437-538 | the process ends: an open transaction is rolled back, and the table is what it was before the batch |
| AuditDb.AuditDb.PurgeOlderThan | src/audit/AuditDb.cpp:726-742 | exactly the rows of the category before the cutoff go; the count is returned; cursor and tail stay |
| AuditDb.AuditDb.VerifyChain | src/audit/AuditDb.cpp:744-833 | the loop reports what the chain specification says of the rows SQLite can read, prepare_failed when it can read none, no_key when there is no key; or throws at a row of the current key whose texts are not UTF-8, all before it being good |
| AuditDb.OwnRowsDump | src/audit/AuditDb.cpp:402-427 | it never throws on a row the database wrote itself |
| AuditDb.ForeignPath | src/api/ControlApi.cpp:780-918 | an event of a request whose path holds such a byte cannot be dumped, and a batch of it throws at once |
| AuditDb.OkMeansClean | src/api/ControlApi.cpp:5198-5209 | the answer "ok" means a clean scan on rows with positive ids |
| AuditDb.OverdueMeans | src/audit/AuditTypes.cpp:33-48 | a sweep removes a row if and only if its text names a category, the purge of that category works, and it is older than 365 days (auth, player), 90 (channel, output, gateway, plugin, mount) or 30 (system, access) |
| AuditDb.RetentionWorker.RunOnce | src/audit/AuditRetentionWorker.cpp:41-65 | one sweep, with the purge of any category failing, keeps exactly the rows no purge that works reaches and returns how many went |
| AuditDb.RetentionWorker.SweepCategory | src/audit/AuditRetentionWorker.cpp:48-60 | one category's share of the sweep; a category without a retention period, or whose DELETE fails, loses nothing |
| AuditRuns.ExactlyOnce | src/audit/AuditLogger.cpp:49-228 | in every interleaving, with any failures and exceptions: every event given is in exactly one of its producer's hands, the queue, a batch, the database, the emergency file and dropped, if and only if no drain, spill or synchronous write came to an event that cannot be dumped |
| AuditRuns.AtMostOnce | src/audit/AuditLogger.cpp:49-228 | whatever happens, no event is in two places and none that was not given is in any |
| AuditRuns.OnlyDumpedArrive | src/audit/AuditLogger.cpp:96-228 | in every run, an event that cannot be dumped never reaches the database or the emergency file; where all can be dumped, no step throws |
| AuditRuns.HarmedMeans | src/audit/AuditLogger.cpp:49-228 | the process lives and no exception took an event if and only if no step came to an event that cannot be dumped |
| AuditRuns.OneEventEndsIt | src/audit/AuditLogger.cpp:154-228 | the concrete case: one such event, logged and drained, and the process is over with the event nowhere |
| AuditRuns.QueueBound | src/audit/AuditLogger.h:111-114 | the queue never holds more than 20001 events, mutations are refused exactly then, a batch is at most 256 |
| AuditRuns.FirstInFirstOut | src/audit/AuditLogger.cpp:154-181 | what the queue accepted is, in order, what is settled, what is in the batch and what waits; each destination holds its share in that order |
| AuditRuns.QueueDrains | src/audit/AuditLogger.cpp:154-181 | of n events in a queue that accepts no more, k takes of the writer leave n - 256 k or none, in any interleaving |
| AuditRuns.DrainedIsSettled | src/audit/AuditLogger.cpp:154-228 | after ceil(n / 256) takes and their drains everything ever accepted is settled |
| AuditRuns.TurnSettles | src/audit/AuditLogger.cpp:154-181 | one turn of a writer not told to stop: it takes 256 events or all there are and is back after as many drain steps and two more, with exactly those settled, whatever fails |
| AuditRuns.DrainIsFinite | src/audit/AuditLogger.cpp:200-228 | every step of a drain brings it nearer to its end, so one of n events takes n + 2 steps at most |
| AuditRuns.AfterStop | src/audit/AuditLogger.cpp:49-65 | after stop in a process still alive, with nothing accepted since it took the tail, queue and batch are empty, and with no producer inside a call every event is at an end or was taken by an exception its caller caught |
| AuditRuns.StatsShortBySpills | src/audit/AuditLogger.cpp:290-304 | between calls and batches enqueued is written, dropped, queued, the uncounted hard-cap spills and what exceptions took together |
| AuditRuns.RunKeeps | src/audit/AuditLogger.cpp:49-228 | the whole invariant after any interleaving with any failures and exceptions |
| AuditRuns.StepOrdered | src/audit/AuditLogger.cpp:200-228 | every step keeps the order at all three destinations |
| AuditRuns.StepCounters | src/audit/AuditLogger.cpp:96-228 | every step keeps the counters in step with what is really there |
| AuditPipeline.StepOnePlace | src/audit/AuditLogger.cpp:96-228 | every step that does not throw keeps each event in one place |
| AuditPipeline.VanishedOnePlace | src/audit/AuditLogger.cpp:96-152 | a producer's write whose exception is caught takes its event and moves no other |
| AuditPipeline.StepInOrder | src/audit/AuditLogger.cpp:96-181 | every step keeps first in, first out |
| AuditPipeline.StepTurns | src/audit/AuditLogger.cpp:39-65 | the writer and the stopping thread never drain at the same time |
| AuditPipeline.DrainKeeps | src/audit/AuditLogger.cpp:200-228 | a step of a drain that does not throw moves events from the batch to the ends and loses none |
| AuditPipeline.EndsMean | src/audit/AuditLogger.cpp:96-228 | the database is written only by an insert that is up and works, the emergency file only by a write that works, dropped is only what that file refused; an insert that works is not spilt, and exactly one that is up and fails is counted as a failure |
| AuditPipeline.ThrowsMeans | src/audit/AuditLogger.cpp:96-228 | a step throws if and only if it would otherwise bring an event that cannot be dumped into the database or the emergency file |
| AuditLogger.StepsDrainBatch | src/audit/AuditLogger.cpp:200-228 | the steps of a drain, taken to the end, do what the batch-wise description says |
| AuditLogger.AuditLogger.Offer | src/audit/AuditLogger.cpp:101-112 | pushed at the back unless 20001 events wait; the writer is woken from 256 on |
| AuditLogger.AuditLogger.TakeBatch | src/audit/AuditLogger.cpp:158-173 | 256 events or, if there are fewer, all, in order, and the rest stay |
| AuditLogger.AuditLogger.DrainBatch | src/audit/AuditLogger.cpp:200-228 | all to the database if it takes them, otherwise each, in order, to the emergency file if its write works and dropped if not, with every counter to match; or the exception at the first event that cannot be dumped, with what went before it |
| AuditLogger.AuditLogger.DrainTail | src/audit/AuditLogger.cpp:49-65 | the queue emptied through one drain, or the exception it leaves with |
| Resealing.ReportIsExact | src/auth/AuthCli.cpp:129-162 | after a failure each entry holds its exact old blob unless its name is in the report, and the names are exactly those of the entries under the new key |
| Resealing.ReportIsNewestFirst | src/auth/AuthCli.cpp:141-155 | the report names each entry not put back once, those of higher number first |
| Resealing.ReportIsOldestFirst | src/utils/DeviceCa.cpp:924-932 | the same for the device CA, those of lower number first |
| AuthCli.Host.ReencryptAll | src/auth/AuthCli.cpp:129-162 | over the secrets that were read: succeeds if and only if every write does; then each entry's plaintext is stored under the new key and done_labels is each entry's own label, in order; otherwise done_labels is empty, the first entry that refused is named, those before it have their old blob back unless they did not take it and are reported newest first, and nothing else is touched |
| AuthCli.Host.PutSecretsBack | src/auth/AuthCli.cpp:141-150 | the rollback walk over the entries, newest first |
| AuthCli.Host.ResealAll | src/utils/DeviceCa.cpp:851-936 | nothing is written unless every key opens; all written, or all but the named ones put back |
| AuthCli.Host.PutCaBack | src/utils/DeviceCa.cpp:924-932 | the rollback walk, oldest first |
| AuthCli.Host.Collect | src/auth/AuthCli.cpp:483-578 | refuses exactly if some secret that can be read does not open or a mounts.db that is found cannot be opened, naming the first; otherwise exactly the secrets that can be read, with their plaintexts |
| AuthCli.Host.StageKey | src/auth/AuthCli.cpp:300-343 | what the staged file is after each way staging can go; nothing else changes |
| AuthCli.Host.CommitReplace | src/auth/AuthCli.cpp:175-202 | the two renames and their failures; every key on disk before is on disk after each step |
| AuthCli.Host.Rotate | src/auth/AuthCli.cpp:448-647 | world and exit are those of the specification, and in every world on the way each secret and CA key the live key opened is readable with a key on disk; only the last step of a failed rotation can end that |
| AuthCli.Host.ReencryptStores | src/auth/AuthCli.cpp:595-630 | the same from the moment both keys are on disk |
| KeyRotation.SecretStranded | src/auth/AuthCli.cpp:448-647 | after any run a secret is readable if and only if it is not a write that could not be put back with the staged key removed |
| KeyRotation.CaStranded | src/auth/AuthCli.cpp:602-624 | the same, exactly, for the device CA, including a failed second re-sealing |
| KeyRotation.CaLeftAlone | src/utils/DeviceCa.cpp:851-915 | a CA of which one key does not open is not touched |
| KeyRotation.NoSecretIsLost | src/auth/AuthCli.cpp:448-647 | over any number of attempts, whatever fails in each and whatever each can read: every secret is readable with a key on disk and says what it said at the start, if and only if no attempt got past the checks and cleared a staged key some secret had no other than, or removed it after a report that names a secret |
| KeyRotation.AttemptStep | src/auth/AuthCli.cpp:448-647 | the same for one attempt, whatever the world before it |
| KeyRotation.SecretStep | src/auth/AuthCli.cpp:448-647 | the same for one secret over one attempt |
| KeyRotation.SeeingAllIsSafe | src/auth/AuthCli.cpp:483-578 | an attempt that can read every secret loses none but those its report names |
| KeyRotation.BlindRerun | src/auth/AuthDb.cpp:1093-1110 | after a failed backup, an attempt that gets past the checks strands every secret the first one re-encrypted exactly when it clears the staged file, and names none |
| KeyRotation.BlindRerunHappens | src/auth/AuthDb.cpp:1093-1110 | the concrete run of two attempts that loses a secret so |
| KeyRotation.DoneMeans | src/auth/AuthCli.cpp:626-645 | success: the key read back from the staged file is live, every secret the run could read and every device CA key is sealed with it and says what it said, a secret it could not read is as it was, the old key is a backup, and the labels are the names of the secrets it read, in order, with "device_ca" last if there is one |
| KeyRotation.RefusedChangesNothing | src/auth/AuthCli.cpp:453-578 | a run the checks refuse changes nothing |
| KeyRotation.NothingRefused | src/auth/AuthCli.cpp:453-578 | the checks pass if and only if the service is stopped, key and databases open and the live key opens every secret that can be read |
| KeyRotation.RefusalMeans | src/auth/AuthCli.cpp:453-578 | which refusal it is: the service runs; no current key; auth.db; the first of its readable secrets that does not open, by name; mounts.db; the first of its secrets |
| KeyRotation.ExitMeans | src/auth/AuthCli.cpp:579-645 | past the checks, which of the seven exits it is, each if and only if everything before it worked and it did not |
| KeyRotation.StoreFailedMeans | src/auth/AuthCli.cpp:129-162 | a failed store names the first readable secret whose write was refused and, newest first, exactly those before it that did not take their old blob again |
| KeyRotation.CaRefusedMeans | src/utils/DeviceCa.cpp:851-936 | what a run says of the device CA: which keys are left under the new key, in order, or nobody if one did not open; and the same for a CA that could not be put back |
| KeyRotation.AfterFailedCommit | src/auth/AuthCli.cpp:175-202 | after a failed commit every secret the run could read, and the device CA, is under the key in the staged file, the others are as they were, and the old key is live or, if only the move failed, a backup |
| KeyRotation.RerunRefuses | src/auth/AuthCli.cpp:483-578 | a second run after a failed commit gets past the checks if and only if the live key is in place, nothing else is in the way and it can read no secret the first run read and none the live key does not open; otherwise it changes nothing |
| KeyRotation.RerunStrandsCa | src/auth/AuthCli.cpp:300-343 | in that case it strands every CA key exactly when it manages to remove the staged file |
| RateLimiter.AdmissionBound | src/audit/AuditRateLimiter.cpp:17-62 | in any stretch of one actor's calls, times in any order, 60000 times the admissions are at most 60000 times the burst plus the rate per minute times the milliseconds from the first call to the latest |
| RateLimiter.TruncationLoss | src/audit/AuditRateLimiter.cpp:17-27 | after n calls a bucket is at most n * rate / 60000 tokens behind one that credits exact time |
| RateLimiter.MinuteGives | src/audit/AuditRateLimiter.cpp:17-27 | left alone for a minute a bucket gains the rate per minute, up to the burst |
| RateLimiter.BurstAdmits | src/audit/AuditRateLimiter.cpp:42-62 | of n calls of a new actor at one instant exactly the first burst ones are admitted |
| RateLimiter.SpacedAreAdmitted | src/audit/AuditRateLimiter.cpp:17-62 | calls so far apart that the rate gives a token each time are all admitted, however long it goes on |
| RateLimiter.CrowdedNeverRefills | src/audit/AuditRateLimiter.cpp:17-27 | calls less than a millisecond after the last refill never refill, however long they go on |
| RateLimiter.NothingIsEverEvicted | src/audit/AuditRateLimiter.cpp:29-40 | with a burst of at least one nothing is ever erased and the buckets are one for each actor ever seen |
| RateLimiter.CollectionIsInvisible | src/audit/AuditRateLimiter.cpp:29-62 | for every configuration and run a call is answered as by the limiter without eviction, from the actor's own calls alone |
| RateLimiter.ActorsAreApart | src/audit/AuditRateLimiter.cpp:42-62 | an actor's bucket is what its own calls made of it |
| RateLimiter.KeysApart | src/audit/AuditRateLimiter.cpp:64-73 | no user shares a bucket with another user or with an address |
| RateLimiter.FullIsLikeAbsent | src/audit/AuditRateLimiter.cpp:29-40 | a full bucket answers like an absent one if and only if the call is not from before its last refill |
| RateLimiter.AuditRateLimiter.Evict | src/audit/AuditRateLimiter.cpp:29-40 | the loop erases exactly the buckets idle for longer than configured and full, at most once a minute |
| RateLimiter.AuditRateLimiter.TryAcquire | src/audit/AuditRateLimiter.cpp:42-62 | buckets, answer and statistics after one call; no other actor's bucket changes |
| JsonDiff.SensitiveMeans | src/audit/AuditPayload.cpp:11-33 | a key is sensitive if and only if one of the 21 words stands somewhere in it, in whatever mix of capitals |
| JsonDiff.CapitalsDoNotMatter | src/audit/AuditPayload.cpp:19-33 | two keys that agree letter by letter but for capitals are both sensitive or neither is |
| JsonDiff.DiffMeans | src/audit/AuditPayload.cpp:100-146 | what the diff holds under a key: nothing if it is skipped or says the same in both at every depth; the diff of two objects; otherwise both values, null where there was none, and the mark for both under a sensitive key |
| JsonDiff.EmptyMeansEqual | src/audit/AuditPayload.cpp:114-146 | the diff is empty if and only if the objects are equal without the skipped keys at every depth |
| JsonDiff.ApplyRebuilds | src/audit/AuditPayload.cpp:100-146 | applying the diff to the old document gives the new one outside the skipped keys if and only if no member became null and none under a sensitive key became anything but the mark |
| JsonDiff.LeafOrNested | src/audit/AuditPayload.cpp:100-146 | a leaf and a nested diff can always be told apart |
| JsonDiff.SwapReverses | src/audit/AuditPayload.cpp:114-146 | the diff of the reverse change is the diff with every leaf turned round |
| JsonDiff.DiffTellsNoSecret | src/audit/AuditPayload.h:38-46 | the bare result of jsonDiff holds no secret if and only if the change moved no object with a secret inside and changed nothing under a sensitive object |
| JsonDiff.AddedObjectTells | src/audit/AuditPayload.cpp:100-112 | the concrete case in which the bare result holds one |
| JsonDiff.StoredHasNoSecrets | src/api/ControlApi.cpp:668-677 | no change brings a secret into the trail, and the stored diff is the bare one if and only if that held none |
| JsonDiff.StoredEntry | src/api/ControlApi.cpp:668-677 | a stored entry: the mark alone under a sensitive key, otherwise a leaf with both values redacted or the stored diff of the two objects, still told apart |
| JsonDiff.StoredRebuilds | src/api/ControlApi.cpp:668-677 | the stored diff applied to the redacted old document gives the redacted new one outside the skipped keys if and only if no public member became null and every member changed under a sensitive key is gone |
| JsonDiff.StoredSwapReverses | src/api/ControlApi.cpp:668-677 | the stored diff of the reverse change is the stored diff with every leaf turned round |
| JsonDiff.RedactedHasNoSecrets | src/audit/AuditPayload.cpp:37-49 | no sensitive key says anything after redaction |
| JsonDiff.RedactionFixpoint | src/audit/AuditPayload.cpp:37-49 | redaction changes a value if and only if it holds a secret |
| JsonDiff.RedactionMeans | src/audit/AuditPayload.cpp:37-49 | member by member: "[REDACTED]" under exactly the keys that name a secret, the others gone through, none added or dropped |
| JsonDiff.RedactSensitiveKeys | src/audit/AuditPayload.cpp:37-49 | the walk over members and items computes the redaction |
| JsonDiff.DiffImpl | src/audit/AuditPayload.cpp:114-146 | the two loops over both objects' keys compute the diff |
| AuditQuery.SelectsWhatMatches | src/audit/AuditDb.cpp:550-651 | for every filter and row the compiled WHERE, parsed with SQL precedence and read in three-valued logic, selects the row if and only if the plain predicate holds, each filter text counting up to its first NUL |
| AuditQuery.StoredEventMatches | src/audit/AuditDb.cpp:402-427 | asked of a stored event, for every filter: it matches the row if and only if event and filter, both cut at their NULs, agree, and the event has nothing where a text of the filter starts with a NUL; without NULs that is what was asked and what happened |
| AuditQuery.JoinedReads | src/audit/AuditDb.cpp:637-640 | the conditions joined with AND are read as the conjunction, each question mark with its argument |
| AuditQuery.PlacesReads | src/audit/AuditDb.cpp:604-635 | the restriction to places is read as category and any of the IN lists |
| AuditList.BuildListQuery | src/audit/AuditDb.cpp:550-651 | the text is the conditions joined, the k-th question mark is bound to the k-th argument and nothing else is, the limit is brought within 1 and 1000 and the offset to at least 0 |
| AuditList.AppendList | src/audit/AuditDb.cpp:608-622 | one more IN list, skipped when empty, joined with OR, its ids bound in order |
| AuditList.PushPlaces | src/audit/AuditDb.cpp:604-635 | the restriction as one condition, 0 = 1 when no place is allowed |
| AuditPages.List | src/audit/AuditDb.cpp:655-705 | at most the clamped limit of the matching rows from the offset on, newest first, fewer only where the listing or what can be read ends; nothing when the statement cannot be prepared |
| AuditPages.Count | src/audit/AuditDb.cpp:707-724 | how many rows match, or 0 when the statement fails |
| AuditPages.ListedIsSorted | src/audit/AuditDb.cpp:643-648 | the listing is the matching rows, each as often as in the table, later times first and higher ids first among equal times |
| AuditPages.PagesShowEverything | src/audit/AuditDb.cpp:643-648 | consecutive pages add up to every match exactly once |
| AuditPages.SteppingByTheAskedLimit | src/api/ControlApi.cpp:5186-5195 | a reader that steps by the echoed limit sees every match if and only if it was within 1 and 1000 or one page holds them all |
| SseFilter.HintMeans | src/api/SseFilter.cpp:30-56 | a hint reaches administrators and, if it is about players, exactly those given the audit of an object or group at either end of its place |
| SseFilter.StreamAgreesWithList | src/api/SseFilter.cpp:30-56 | a hint that names the place of the row reaches exactly those whom the restricted list shows the row |
| SseFilter.GrantsCoverWhatIsAllowed | src/api/ControlApi.cpp:5171-5184 | the allowed ids of the list cover a place if and only if some grant does |
| SseFilter.AgreeOnPlaces | src/api/SseFilter.cpp:30-56 | all readers agree on two places if and only if both name the same objects and the same groups |
| SseFilter.ReadersAgree | src/audit/AuditLogger.cpp:86-94 | producer by producer, when everybody hears of exactly the player events he can read: a request unless its target got a place only after the hint; the device port if and only if the target has no place; bulk commands and the certificate watch never |
| SseFilter.RequestsAgree | src/api/ControlApi.cpp:881-918 | with nothing moving between hint and row, every request stores the place it announced and all readers agree |
| SseFilter.RequestReaders | src/api/ControlApi.cpp:881-918 | who hears of what a request does to a player, a group, an object or anything else, of a deletion and of a move: those of his group and its object, of the object, administrators only, those of the group as it was, and both ends |
| SseFilter.RowReaders | src/audit/AuditLogger.cpp:86-94 | who can read the row: if the hint names a place, those who heard of it; if not, those who audit the place the player, group or object has when the row is logged, and administrators only if it has none |
| SseFilter.RenewalGoesUnheard | src/main.cpp:1540-1567 | the concrete case: a renewal at the device port, read but never announced to who holds the audit of the object |
| AudioEncoder.NothingLost | src/audio/AudioEncoder.cpp:105-134 | frames taken and samples waiting are, one after the other, the input |
| AudioEncoder.PlaneSample | src/audio/AudioEncoder.cpp:116-127 | plane c, sample i of frame k is input sample k * frame_size * channels + i * channels + c, stamped k * frame_size |
| AudioEncoder.Backlog | src/audio/AudioEncoder.cpp:112-114 | one frame a call at most: small inputs leave less than a frame waiting, the surplus of large ones piles up |
| AudioEncoder.TakesWhenFull | src/audio/AudioEncoder.cpp:105-134 | a call takes a frame if and only if, with what it brings, enough samples wait |
| AudioEncoder.Encoder.Encode | src/audio/AudioEncoder.cpp:105-134 | queue, frames and stamps stay those of the plain queue, compacted or not; a frame is submitted exactly when enough samples wait, and at most 8192 consumed samples are kept |
| AudioEncoder.Encoder.Deinterleave | src/audio/AudioEncoder.cpp:118-124 | the nested loops put each channel's samples in its plane |
| AudioEncoder.Encoder.Close | src/audio/AudioEncoder.cpp:89-103 | what waits is dropped |
| LogTail.TailSplitsTheLog | src/api/ControlApi.cpp:2253-2330 | however growth is cut into polls, what was sent is exactly the complete lines of the appended bytes, in order, and the carry is the rest, until a poll meets a line that is not UTF-8; that one ends the stream, if and only if there is such a line in what was read |
| LogTail.PollsDoNotMatter | src/api/ControlApi.cpp:2253-2330 | of two readers equally far both or neither have ended, and if neither, both have been sent the same |
| LogTail.LinesOfParts | src/api/ControlApi.cpp:2302-2322 | the lines of a text cut in two are those of the first part and of its rest with the second |
| LogTail.LinesSayTheText | src/api/ControlApi.cpp:2302-2322 | the raw lines and the rest put together are the text, none holds a newline, and what is sent of a line is all but one carriage return at its end |
| LogTail.RotationStartsAfresh | src/api/ControlApi.cpp:2268-2279 | a noticed rotation is announced and the new file sent from its first byte, or nothing more if a line of it is not UTF-8 |
| LogTail.RotationNoticed | src/api/ControlApi.cpp:2268-2279 | a rotation is announced if and only if the file a poll sizes up is shorter than what was read |
| LogTail.RotationUnnoticed | src/api/ControlApi.cpp:2268-2285 | a new file at least as long as what was read loses its beginning |
| LogTail.KeepaliveMeans | src/api/ControlApi.cpp:2253-2330 | a keepalive is sent if and only if there is no file, it has not grown, or it has no further complete line |
| LogTail.LogStream.PollOnce | src/api/ControlApi.cpp:2253-2330 | one poll: state, frames and whether an exception leaves it, as specified |
| LogTail.SplitBody | src/api/ControlApi.cpp:2302-2322 | the loop over newlines computes lines and rest, or throws exactly if some line cannot be dumped |
| PlayerGrants.CanonicalIffPermuted | src/api/ControlApi.cpp:3937-3946 | for lists with distinct places the canonical text is equal if and only if they are permutations |
| PlayerGrants.CanonicalMeans | src/api/ControlApi.cpp:3937-3946 | the canonical text lists all rights, those on objects first and then those on groups, by id |
| PlayerGrants.NoLostUpdate | src/api/ControlApi.cpp:4027-4043 | in any interleaving of editors, scope drops, erasure and failing reads, a checked replacement that comes to be stored replaces exactly the rights its author read last if and only if what was dropped since its comparison is what the comparison failed to read (with a complete listing: nothing was dropped), or two fingerprints collide |
| PlayerGrants.ComparedIsRead | src/api/ControlApi.cpp:4027-4043 | a comparison lets a replacement through if and only if the list it reads is the one its author read, or two fingerprints collide |
| PlayerGrants.OnlyDropsBetween | src/api/ControlApi.cpp:4027-4043 | between comparison and store only drops and an erasure change the rights: the other replacements wait |
| PlayerGrants.DropIsOverwritten | src/api/ControlApi.cpp:3507-3550 | the concrete run in which a right just dropped with its group is stored back |
| PlayerGrants.FailedReadPasses | src/auth/AuthDb.cpp:1639-1661 | the concrete run in which rights nobody was shown are replaced |
| PlayerGrants.GoneHasNothing | src/api/ControlApi.cpp:4027-4043 | an erasure can come at any time, and after it the person has no rights whatever replacement is under way |
| PlayerGrants.Validate | src/api/ControlApi.cpp:3990-4025 | more than 500 entries; or the first faulty entry and what is wrong with it first; or each entry's place with exactly the rights that are true in it |
| PlayerGrants.FaultMeans | src/api/ControlApi.cpp:3990-4025 | which refusal an entry gets, each if and only if nothing before it in the order of the checks is wrong and this is |
| PlayerGrants.FaultlessIsAdmissible | src/api/ControlApi.cpp:3990-4025 | an accepted list names existing places, each once, nothing a group cannot have and for a viewer the audit alone |
| PlayerGrants.Rights.RevisionOf | src/api/ControlApi.cpp:3937-3954 | the loop over the sorted list gives the canonical text and its fingerprint |
| PlayerGrants.Rights.Matches | src/api/ControlApi.cpp:4027-4036 | the comparison of the carried fingerprint with that of the list as it was read |
| PlayerGrants.Rights.Replace | src/auth/AuthDb.cpp:1663-1712 | all new rows or, if the person is gone, a place comes twice or any statement fails, the old ones |
| PlayerGrants.Rights.DropScope | src/auth/AuthDb.cpp:1714-1725 | the rights on the object or group go, every other stays as often as it was, and how many went is returned |
| AuthDb.Database.PurgeUser | src/auth/AuthDb.cpp:688-744 | succeeds if and only if storage works, the user exists and gave no channel permission to another; otherwise nothing changes |
| AuthDb.Database.DeleteUser | src/auth/AuthDb.cpp:725-738 | refused while another row holds the user; otherwise his row goes and his player grants with it |
| AuthDb.IntegrityMeans | src/auth/AuthDb.cpp:47-149 | what the schema enforces, column by column: whoever is named is there, but for the granter of a player grant |
| AuthDb.DeletedKeepsIntegrity | src/auth/AuthDb.cpp:47-149 | deleting the user's row leaves every foreign key intact if and only if nothing holds him |
| AuthDb.Database.RunStatements | src/auth/AuthDb.cpp:717-724 | the seven statements before it |
| AuthDb.ChildrenReferenced | src/auth/AuthDb.cpp:717-724 | of all references only a permission given to another survives them, and it holds the user |
| AuthDb.PurgedKeepsIntegrity | src/auth/AuthDb.cpp:47-149 | afterwards no foreign key refers to the user and everybody else's still hold |
| AuthDb.UnrelatedStay | src/auth/AuthDb.cpp:717-725 | the user's own rows are gone, nobody else's and none is added; a row that merely names him keeps all but that name |
| AuthDb.GranterMayDangle | src/auth/AuthDb.cpp:135-148 | a player grant given to another goes on naming the user |
| StreamLimiter.RunBalances | src/api/StreamLimiter.h:26-56 | over any run the total is the places out, each stored count is a user's places and positive |
| StreamLimiter.GrantsWithinCaps | src/api/StreamLimiter.h:31-47 | granted exactly below both caps in force, which are those last configured; a release gives one place back, a refusal changes nothing, new caps cut nothing |
| StreamLimiter.SetLimits | src/api/ControlApi.cpp:6703-6713 | the caps leave at least eight workers free; each number asked for is taken if within bounds and otherwise becomes the bound it is beyond |
| StreamLimiter.Limiter.Configure | src/api/StreamLimiter.h:31-35 | each cap at least one, nothing else changed |
| StreamLimiter.Limiter.Acquire | src/api/StreamLimiter.h:40-48 | one place taken or nothing changed |
| StreamLimiter.Limiter.Release | src/api/StreamLimiter.h:49-55 | one place given back |
| ChannelManager.RegistriesAgree | src/api/ChannelManager.cpp:109-293 | over every sequential run the watchdog has exactly the live channels and the sampler exactly the running ones |
| ChannelManager.RefusedCreateRestores | src/api/ChannelManager.cpp:109-186 | a refused create restores channels, registries and disk, at most its own fresh folder stays; a folder that was there is never deleted or rewritten |
| ChannelManager.ChosenIsFresh | src/api/ChannelManager.cpp:97-102 | an id chosen by the manager is fresh and the only one it can choose |
| ChannelManager.LoadIgnoresListing | src/api/ChannelManager.cpp:513-607 | every order in which the directory lists its folders loads the same |
| ChannelManager.LoadEachMeans | src/api/ChannelManager.cpp:534-605 | each new channel comes from the first folder in path order that has its id and builds; exactly the ephemeral folders that can be removed go |
| ChannelManager.RemovalTakesAnothersFolderIff | src/api/ChannelManager.cpp:109-239 | some run and some removal delete the folder of another live channel if and only if the disk at the start holds a folder that loads one channel and bears a name create would give to another |
| ChannelManager.MovesIn | src/api/ChannelManager.cpp:513-607 | a channel can be made to live in any folder that builds it, by removals and restarts |
| ChannelManager.DirsApart | src/api/ChannelManager.cpp:87-95 | the name of a folder says whose it is |
| ChannelManager.Manager.ChooseId | src/api/ChannelManager.cpp:97-102 | the id asked for, or one above the highest |
| ChannelManager.Manager.Create | src/api/ChannelManager.cpp:109-186 | state and result for every way it can go |
| ChannelManager.Manager.Remove | src/api/ChannelManager.cpp:199-239 | channel, registrations and folder gone |
| ChannelManager.Manager.Play | src/api/ChannelManager.cpp:241-255 | running and sampled, or nothing changed |
| ChannelManager.Manager.Stop | src/api/ChannelManager.cpp:257-272 | neither running nor sampled |
| ChannelManager.Manager.Restart | src/api/ChannelManager.cpp:274-293 | running and sampled, or stopped and not sampled if it does not start |
| ChannelManager.Manager.SetProfileSampler | src/api/ChannelManager.cpp:648-663 | the new sampler samples exactly the running channels |
| ChannelManager.Manager.StopAll | src/api/ChannelManager.cpp:757-769 | no channel, nothing watched or sampled |
| ChannelManager.Manager.LoadFromRoot | src/api/ChannelManager.cpp:513-607 | the folders in path order, and how many came up |

## Left out

- HTTP routing, role tables, TLS bootstrap, configuration parsing, logging, metrics and the user interface:
  plumbing with no deep invariant.
- SQLite, libsodium, OpenSSL and FFmpeg themselves: a table is a sequence or map with atomic transactions,
  the MAC any function, encryption symbolic, the codec a sink of frames. A failed SQL statement or a failed
  atomic file write leaves what it was about unchanged.
- AuditDb.AuditDb.Insert: the event object's own id and MAC fields, which the code also fills in, are not
  part of the model.
- AuditChain.MessageSays: a `char` stands for one byte of a `std::string`; the id and the legacy flag of a
  row are not signed by the code either.
- AuditStore.TrailVerifiesIff: purges, several keys and lost tails together are the matter of
  `AuditForetold.RunForetold`, which says for every run which row is reported. An event whose dump throws is
  never appended and is a failed step of these runs.
- AuditChain.CleanScanFaithful: the key fingerprint of a row, hex text when the database writes it, is
  compared whole, not up to a NUL.
- Schema migrations of audit.db and the replay of emergency lines: not part of this model.
- AuditRuns.ExactlyOnce: a failed emergency write is taken to leave nothing in the file; the flush timer,
  the condition variable and the in-flight counter used by tests only are left out, since any interleaving
  is covered without them.
- AuditRuns.AfterStop: start and stop are called from one control thread; two threads calling them at once
  are not modelled.
- AuthCli.Host.Rotate: a key kept as a systemd credential (`CredentialKeyStore`) differs only in how the
  staged file is written and is not modelled; the rules for environment keys and passphrases are one input.
  `done_labels` and the messages are lists of names, not printed text.
- RateLimiter.AdmissionBound: tokens are reals; rounding of `double` is left out.
- JsonDiff.EmptyMeansEqual: numbers compare by value as reals. The code compares an integer with a float
  after converting it to `double`, so 9007199254740993 and 9007199254740992.0 are equal to it and different
  here; NaN is left out.
- `buildAuditDetailsFromBody`: size limits around the redaction, which is modelled; it would only add easy members.
- LogTail.TailSplitsTheLog: a file that grows during one read, and a client that disconnects, are left out;
  lines are sent as values, not as JSON text. What the HTTP library does with an exception that leaves a
  stream is not part of the model.
- PlayerGrants.Rights.Matches: a fingerprint that is no string is refused before this point.
- PlayerGrants.NoLostUpdate: rights changed back to what an author read count as unchanged, as in the code;
  the rights of one person are the matter, since every operation but the drop touches one person's.
- SseFilter.StreamAgreesWithList: hints are values; that the JSON dump of one can throw is left out.
- Archived tables of older schema versions in auth.db: not part of this model.
- ChannelManager.RemovalTakesAnothersFolderIff: rewriting a live channel's config.json is not an operation
  of the model.
- ChannelManager.RegistriesAgree: runs are sequential; a channel whose pipeline stops by itself, and
  operations in the middle of another one, are left out. Ids are unbounded, so the overflow at the highest
  C `int` is not modelled.
- AudioEncoder.Encoder.Encode: whether the codec accepts a submitted frame does not influence the
  accumulator and is left out.
- The AVX2 crossfade, loudness code, enum and name tables, label escaping and the other branches of the
  event filter: correct but easy, or floating point.
