# RustPanel, modelled and proved in Dafny

RustPanel is a server panel with a Rust backend and a browser front end. This project models the parts
of it that carry state, arithmetic or a protocol, and proves what they promise over every input, every
run and every interleaving. It verifies with Dafny 4.11: `dafny verify dfyconfig.toml`.

## What is modelled

| area | files |
|---|---|
| The browser cipher: codecs, SM4 as an unbalanced Feistel network, CBC, PKCS#7 | `Codec.dfy`, `Feistel.dfy`, `Cbc.dfy`, `Sm4.dfy` |
| Its maps, constants and parsing, and the example of GB/T 32907 from the key string on | `Sm4Standard.dfy` |
| The browser MD5 against RFC 1321, down to its rotations and byte orders | `Md5.dfy`, `Md5Standard.dfy` |
| The streaming log tail, and logs with either line ending | `LogTail.dfy`, `LogTwins.dfy` |
| The login rate limiter, its eviction, and logins racing through it | `RateLimit.dfy`, `RateLimitRuns.dfy` |
| Schema migrations over crashes, failures and reruns | `Migrations.dfy` |
| Users, sessions, token versions, and racing logins and updates | `Accounts.dfy`, `AccountRuns.dfy` |
| One-time event-stream tickets | `SseTickets.dfy`, `SseRuns.dfy` |
| Sealed secrets and key rotation over an ideal cipher | `Secrets.dfy`, `SecretStore.dfy` |
| The audit protocol: intents, events, outbox | `Audit.dfy`, `AuditRuns.dfy` |
| Web-server site files: printers, parsers, what is printed and what is read back | `Text.dfy`, `SiteConfig.dfy`, `SitePrinted.dfy`, `SiteRoundTrip.dfy`, `CaddyRoundTrip.dfy` |
| The atomic file write, alone and with any number of writers | `AtomicWrite.dfy`, `AtomicWriteRuns.dfy` |
| Managed paths | `PathBounds.dfy` |
| Shared: options and results, runs of a state machine, a SQLite connection | `Wrappers.dfy`, `Runs.dfy`, `Sqlite.dfy` |

Each area has two layers. The first follows the code: loops, in-place updates and sequences of SQL
statements are methods over classes, arrays and a connection whose every statement may fail, and each
method's contract ties the new state to a function of the old one. The second is about those
functions: invariants over every run of a state machine whose steps are single statements or
transactions of any number of clients, and lemmas that relate several operations. Where such a step is
not a function that a contract names, a lemma links the two layers: the steps with nothing in
between do what the method does (`AccountRuns.LoginAsTheMethod`, `AuditRuns.OperationAsTheMethod`,
`AtomicWriteRuns.AloneAsTheMethod`).

What the functions at the bottom compute is stated without them: the SM4 maps on single bits, the
rotations against the word's own, byte orders by value, a published example of each cipher, account
names letter by letter, and the columns, rows and printed lines themselves.

## Conventions and assumptions

- A clock never goes back. Every operation takes the readings of the clock it would make.
- Random draws are parameters. Token and ticket identifiers are assumed fresh wherever a run draws
  them; hashes of identifiers are assumed not to collide, so a session is keyed by its identifier.
- The cipher of the secret store is ideal: a box opens with the key, nonce and associated data it was
  sealed with and with nothing else.
- The tables that the proofs do not need are parameters: the SM4 substitution box, the MD5 sine table,
  the SQL of the migrations. The example of SM4 takes the source's box (`Sm4Standard.Example`); that of
  MD5 assumes the numbers that RFC 1321 lists for the sines (`Md5Standard.EmptyDigest`).
- What a library answers is a parameter: whether a stored hash can be read and wants a rehash, whether a
  token can be signed, how a command ended.
- A SQLite transaction is all or nothing in the file. A failing `COMMIT` leaves the file as it was.
- A JavaScript number that is only an operand of bitwise operators stands for its 32-bit image.

## Where the code is less, or more, than it seems

- `pkcs7unpad` looks at the last byte only. `Sm4.PadUnpad` and `Sm4.ReencryptionRoundTrip` give the
  exact condition under which unpadding, or a whole decryption, can be undone, and
  `Sm4.AcceptedNotCanonical` a block outside it.
- The cipher's round trip is one of bytes. `TextDecoder` drops a byte-order mark, so it does not hold
  of strings.
- The browser MD5 writes only 32 bits of the message length and encodes surrogates one by one. It is
  the MD5 of the text's UTF-8 while the text has no surrogates and is shorter than 2^29 bytes
  (`Md5.TextIsUtf8`, `Md5.PaddingIsRfc`).
- The log tail tests its byte limit before it drops the line that exceeds the line limit, so the
  `truncated` flag can be set by a run of one line more than the limit, although all the lines asked
  for are returned (`LogTail.CapHitExactly`, `LogTail.FlagWithoutLoss`).
- The limiter evicts before it inserts, so each map may hold one bucket more than its cap
  (`RateLimitRuns.CapIsPassedByOne`), although a test in the repository expects the cap itself after
  some number of failures.
- `purge_expired` compares whole seconds and `validate_session` nanoseconds: a session that expires on
  the very nanosecond of the purge is gone one instant early (`Accounts.PurgeUnobservable`,
  `Accounts.PurgedOnItsLastInstant`).
- The associated data of a secret joins purpose and name with a bar, so a purpose with a bar in it can
  share its associated data with another pair (`Secrets.AadCollides`, `Secrets.AadDetermines`).
- `parse_apache` takes any `:443` for TLS, also that of ports 4430 to 4439 and 44300 to 44399, and of a
  proxy, a root or an index list (`SiteRoundTrip.ApacheRoundTrip`, `SiteRoundTrip.PortsStarting443`).
- A logout does not reach an authentication that has read the session already; a new password does, by
  the token version (`AccountRuns.InFlightAtRevocation`, `AccountRuns.LogoutExactly`,
  `AccountRuns.AcceptedAfterLogout`).
- `match_root` compares the lengths of texts. The roots of RP_FILE_ROOTS are normalised first; those of
  RP_LOG_ROOTS are not, and a long spelling of an outer root then hides an inner one
  (`PathBounds.BestIsInnermost`, `PathBounds.LongSpellingMisleads`).
- `atomic_write_beneath` can answer with an error after it has published: when the parent's sync fails
  (`AtomicWriteRuns.AnswersTellPublication`).

## Model

| member | source | states |
|---|---|---|
| Codec.HexRoundTrip | public/lib.js:100-109 | decoding the hexadecimal of any bytes gives the bytes back |
| Codec.WordRoundTrip | public/lib.js:110-119 | packing the bytes of any words gives the words back |
| Codec.ByteRoundTrip | public/lib.js:110-119 | unpacking the words of whole groups of bytes gives the bytes back |
| Codec.Hex2Bytes | public/lib.js:100-104 | the loop decodes two digits at a time, malformed ones as zero words, exactly as its specification function |
| Codec.Bytes2Hex | public/lib.js:105-109 | the loop prints every byte as two digits |
| Codec.Bytes2Words | public/lib.js:110-114 | the loop packs four bytes into a word, missing ones as zero |
| Codec.Words2Bytes | public/lib.js:115-119 | the loop unpacks every word into four bytes |
| Feistel.BlockRoundTrip | public/lib.js:80-98 | 32 rounds under the reversed round keys undo the rounds, for any lawful network |
| Feistel.EncryptBlock | public/lib.js:80-88 | the shifting loop computes the network's encryption |
| Feistel.DecryptBlock | public/lib.js:90-98 | the loop over the keys from the back computes its decryption |
| Feistel.ScheduleInjective | public/lib.js:66-78 | different starting words have different last four round keys |
| Cbc.CbcRoundTrip | public/lib.js:130-159 | chained decryption undoes chained encryption of any whole blocks |
| Cbc.CbcRoundTripBack | public/lib.js:130-159 | and chained encryption undoes chained decryption |
| Cbc.EncryptBlocks | public/lib.js:136-141 | the loop computes the chained encryption, feeding each block into the next |
| Cbc.DecryptBlocks | public/lib.js:151-156 | the loop computes the chained decryption |
| Cbc.EncryptedAt | public/lib.js:136-141 | every cipher block is the encryption of its plaintext block added to the cipher block before it or the vector, as section 6.2 of NIST SP 800-38A has it |
| Sm4.ExpandKey | public/lib.js:66-78 | the array loops compute the key schedule of the parsed master key |
| Sm4.RoundKeysInjective | public/lib.js:54-78 | different master keys have different round keys |
| Sm4.Pkcs7Pad | public/lib.js:123 | the loop appends the padding, whole blocks of 1 to 16 equal bytes |
| Sm4.UnpadPad | public/lib.js:123-128 | unpadding undoes padding |
| Sm4.PadUnpad | public/lib.js:124-128 | padding undoes unpadding exactly when all the padding bytes are as padding writes them |
| Sm4.AcceptedNotCanonical | public/lib.js:124-128 | a block that is accepted although padding never writes it |
| Sm4.Sm4CbcEncryptHex | public/lib.js:130-143 | the loops compute the specification's encryption of the bytes under the key and vector strings; what that is, `Sm4Standard.EncryptsInCbc` and `Sm4Standard.Example` say |
| Sm4.Sm4CbcDecryptHex | public/lib.js:145-159 | the loops compute the specification's decryption, which undoes that encryption (`Sm4.CipherRoundTrip`) and has exactly the errors of `Sm4Standard.RefusedExactly` |
| Sm4.CipherRoundTrip | public/lib.js:80-159 | decrypting an encryption returns the bytes, for every byte string, substitution box, key string and vector string |
| Sm4.CiphertextLength | public/lib.js:130-143 | the length of the ciphertext in terms of the plaintext's |
| Sm4.ReencryptionRoundTrip | public/lib.js:123-159 | a ciphertext is given back by re-encryption exactly when its padding is canonical |
| Sm4Standard.RotlRotates | public/lib.js:57 | at the six amounts in use the two shifts rotate the word to the left |
| Sm4Standard.LinearMaps | public/lib.js:61-62 | what `L` and `Lp` make of a single bit, and `L` of the box's first entry in every byte |
| Sm4Standard.TauByteByByte | public/lib.js:58-60 | every byte goes through the box at its own place |
| Sm4Standard.CkWords | public/lib.js:55 | byte j of constant i is (4i + j) * 7 modulo 256 |
| Sm4Standard.Example | public/lib.js:53-88 | with the source's box the key 0123456789abcdeffedcba9876543210, parsed from its string, encrypts itself to 681edf34d206965e86b3e94f536e4246, the example of GB/T 32907 |
| Sm4Standard.KeyOfGroups | public/lib.js:67-68 | the key string is taken eight digits at a time |
| Sm4Standard.EightDigits | public/lib.js:68 | eight digits are their number to the base 16 |
| Sm4Standard.Parsed | public/lib.js:68 | a sign, a prefix 0x and whatever follows the digits are let pass, and a minus negates |
| Sm4Standard.EncryptsInCbc | public/lib.js:130-143 | for all strings: the length of the ciphertext, and each of its blocks from the padded plaintext's and the one before |
| Sm4Standard.RefusedExactly | public/lib.js:145-159 | each error of decryption exactly: not whole blocks by the length of the string alone, bad padding by the last recovered byte alone |
| Sm4Standard.UnpadTakes | public/lib.js:124-128 | how much of an array unpadding leaves, also of one shorter than its last byte says |
| Md5.Md5Cycle | public/lib.js:6-23 | the loop over moving registers computes 64 steps and adds them to the state array |
| Md5.CycleIsRfc | public/lib.js:6-23 | the loop is the transformation of section 3.4 of RFC 1321, with its fixed registers and its tables |
| Md5.MixIsAuxiliary | public/lib.js:10-13 | the expressions of the loop are F, G, H and I of section 3.4, round by round |
| Md5.TextIsUtf8 | public/lib.js:25-31 | the bytes hashed are the text's UTF-8 exactly when it has no surrogates |
| Md5.PadMessage | public/lib.js:32-39 | the loop pads to 56 modulo 64 with the fewest zeros and appends the length |
| Md5.PaddingIsRfc | public/lib.js:32-39 | the padding is the standard's exactly for messages shorter than 2^29 bytes |
| Md5.Digest | public/lib.js:24-50 | the whole digest as a function of the text |
| Md5.Md5IsRfc | public/lib.js:24-50 | under both conditions the digest is RFC 1321's of the text's UTF-8 |
| Md5.WordMd5IsRfc | public/lib.js:6-50 | and so it is on 32-bit words from the standard's initial state, with the operations that the next rows describe |
| Md5Standard.RotatesLeft | public/lib.js:17 | at the sixteen amounts in use the two shifts rotate the word to the left |
| Md5Standard.LowFirstValue | public/lib.js:44 | the bytes of a word are its digits to the base 256, low-order first |
| Md5Standard.OctetsOfWord | public/lib.js:44-48 | taking a word apart gives back the bytes it was put together from |
| Md5Standard.InitialState | public/lib.js:41 | the initial state has the bytes 01 23 45 67, 89 ab cd ef, fe dc ba 98, 76 54 32 10 |
| Md5Standard.UnitIsUtf8 | public/lib.js:28-30 | a code unit in one, two or three bytes of the ranges of RFC 3629, which give it back |
| Md5Standard.LengthIsLowFirst | public/lib.js:35-40 | the length is written low-order byte first |
| Md5Standard.BlocksGoOn | public/lib.js:43-46 | every block goes on from the state that the blocks before it left |
| Md5Standard.WordDigits | public/lib.js:47-48 | a word is printed low-order byte first, two digits a byte |
| Md5Standard.EmptyDigest | public/lib.js:1-50 | with the numbers that RFC 1321 lists for the sines the empty text has the digest d41d8cd98f00b204e9800998ecf8427e of its section A.5 |
| LogTail.BoundedTail | src/api/v1/log.rs:46-103 | the loop over any reader answers as the closed specification of the bytes it delivers, of which the next rows say what it is |
| LogTail.ChunkingIrrelevant | src/api/v1/log.rs:57-106 | the answer is the same however the bytes are cut into chunks |
| LogTail.LinesPartition | src/api/v1/log.rs:60-76 | splitting into lines loses nothing |
| LogTail.LinesAreLines | src/api/v1/log.rs:60-76 | every line ends at its first newline, and only the last may have none |
| LogTail.AcceptedTail | src/api/v1/log.rs:77-103 | the count is of all matching lines, the lines are the longest suffix of at most 10_000 lines and 4 MiB, and without the flag they are exactly the last ones asked for |
| LogTail.KeptIsLongest | src/api/v1/log.rs:89-94 | dropping from the front keeps the longest suffix within line and byte limit |
| LogTail.CapHitExactly | src/api/v1/log.rs:89-94 | the flag is set exactly when some run of at most one line over the limit exceeds the byte limit |
| LogTail.FlaggedExactly | src/api/v1/log.rs:83-101 | the flag is set exactly when more than 10_000 lines are asked for or some run of at most one line over the limit exceeds 4 MiB |
| LogTail.FlagWithoutLoss | src/api/v1/log.rs:46-103 | a file of 65 lines of the greatest length, of which 64 are asked for: just those are returned, and the flag is set |
| LogTail.FlagNeedsMoreThan20 | src/api/v1/log.rs:40-103 | some file sets the flag exactly when more than 20 lines are asked for |
| LogTail.NewestSurvives | src/api/v1/log.rs:77-101 | the newest matching line is never dropped, so the deque is never popped empty |
| LogTwins.StrippedEnding | src/api/v1/log.rs:72-77 | a newline, a carriage return and both together are stripped, and nothing else |
| LogTwins.StrippedOnce | src/api/v1/log.rs:72-77 | but only one of each |
| LogTwins.SelectedExactly | src/api/v1/log.rs:78-82 | a line is taken exactly when the keyword occurs anywhere in its decoded text, or always without one |
| LogTwins.CrlfTwin | src/api/v1/log.rs:46-103 | a log and its twin with a carriage return before every newline are answered alike, unless that makes a line too long |
| RateLimit.EvictIfNeeded | src/service/rate_limit.rs:104-124 | eviction leaves all, the live, or three quarters of the cap of the least idle buckets |
| RateLimit.IdlestKeys | src/service/rate_limit.rs:114-123 | sorting and taking from the front gives that many keys, none touched later than one that stays |
| RateLimit.LoginRateLimiter.Check | src/service/rate_limit.rs:135-152 | the verdict on the pruned buckets, which `RateLimitRuns.VerdictOfTheFullLog` gives in full; no bucket is created |
| RateLimit.LoginRateLimiter.RecordFailure | src/service/rate_limit.rs:154-167 | eviction of both maps, then the failure in both buckets |
| RateLimit.LoginRateLimiter.ClearSuccess | src/service/rate_limit.rs:169-177 | the account's bucket is emptied, and only its entries leave the address's |
| RateLimitRuns.InterleavedLoginsBounded | src/api/v1/login.rs:109-155 | with at most k logins of an account or address in flight, its bucket never exceeds MAX_FAILURES + k - 1 |
| RateLimitRuns.AllLoginsBounded | src/api/v1/login.rs:109-155 | with at most k logins in flight in all, no bucket of either map exceeds that bound |
| RateLimitRuns.BoundIsAttained | src/api/v1/login.rs:109-155 | the bound is exact: for every k a run with at most k in flight in all reaches it on both maps |
| RateLimitRuns.VerdictOfTheFullLog | src/service/rate_limit.rs:25-152 | after any run the check blocks exactly when the full log holds five failures of the last fifteen minutes, uncleared and unevicted, of the account under any spelling of its name or of the address |
| RateLimitRuns.LowerExactly | src/service/rate_limit.rs:137-170 | two names are one account exactly when they are equal letter by letter but for the case of A to Z |
| RateLimitRuns.SpellingsAlike | src/service/rate_limit.rs:135-177 | checking, recording and clearing cannot tell one spelling of a name from another |
| RateLimitRuns.ClearKeepsOthers | src/service/rate_limit.rs:67-69 | a successful login keeps every other account's entries, in order |
| RateLimitRuns.BucketsOrdered | src/service/rate_limit.rs:35-38 | every bucket stays in time order in every run |
| RateLimitRuns.EvictionIsFair | src/service/rate_limit.rs:104-124 | eviction of more than 10_000 live buckets leaves exactly 7_500, and no failure it discards is later than the last of any survivor |
| RateLimitRuns.MapsBounded | src/service/rate_limit.rs:154-167 | neither map ever holds more than MAX_BUCKETS + 1 buckets |
| RateLimitRuns.CapIsPassedByOne | src/service/rate_limit.rs:154-167 | some run fills both maps to MAX_BUCKETS + 1 |
| Migrations.ValidateHistory | src/repository/migrations.rs:158-184 | the loop gives the first fault of the history, or its version |
| Migrations.FirstFault | src/repository/migrations.rs:164-176 | the fault reported is that of the first row that has one, a wrong version before a wrong checksum |
| Migrations.HistoryIsPrefix | src/repository/migrations.rs:158-184 | it accepts exactly the prefixes of the migrations, only the whole list when complete |
| Migrations.RecordMigration | src/repository/migrations.rs:186-206 | one row in version order, or nothing at all |
| Migrations.InsertedExactly | src/repository/migrations.rs:186-206 | a version that is there is refused, any other goes between the smaller and the greater ones |
| Migrations.AdoptLegacyBaseline | src/repository/migrations.rs:209-247 | a database with users, all required columns and no history is put at version 1; one without the columns is refused; others are left alone |
| Migrations.PlanExactly | src/repository/migrations.rs:209-258 | where a run starts: after a recorded prefix, at the start of an empty database, after the first migration of a legacy one |
| Migrations.ApplyOne | src/repository/migrations.rs:280-299 | schema change and history row are in the file together or not at all |
| Migrations.ApplyPending | src/repository/migrations.rs:249-307 | under any failures every content the file ever has is on the way up, success is the last version, and the loop's own history errors never occur |
| Migrations.CrashedOnStairs | src/repository/migrations.rs:249-307 | wherever a run stops, the history is a prefix, the schema is the original with exactly that prefix applied, and each SQL was committed once |
| Migrations.ResumeReachesTheSame | src/repository/migrations.rs:249-307 | a rerun from any crash point is headed for the same final database |
| Migrations.EachMigrationAtMostOnce | src/repository/migrations.rs:249-307 | over any series of crashed runs the SQL committed is exactly that of the consecutive migrations from the planned one to the level reached: none twice, the first never on an adopted database, nothing on a refused one; and the end that a full run would reach never changes |
| Migrations.RefusedIsUntouched | src/repository/migrations.rs:209-258 | a refused database gains at most an empty history table |
| Migrations.VerifiedExactly | src/repository/migrations.rs:360-395 | verification accepts exactly a sound file with the whole history of eight |
| Migrations.VerifiedIsFixpoint | src/repository/migrations.rs:389-394 | a file that verification accepts is already where any run would bring it |
| Migrations.FixpointStays | src/repository/migrations.rs:249-307 | no run over such a file changes it |
| Migrations.MigratedIsVerified | src/repository/migrations.rs:389-394 | a completed run leaves a file that verification accepts |
| Migrations.NamesAreNumbered | src/repository/migrations.rs:59-100 | there are eight migrations, and their names are numbered as their versions |
| Accounts.CreateSession | src/service/sessions.rs:28-64 | one new unrevoked session of an existing user with nothing else touched, or no change |
| Accounts.ValidateSession | src/service/sessions.rs:77-106 | success exactly for a present, own, unrevoked, unexpired session |
| Accounts.RevokeSession | src/service/sessions.rs:108-119 | that session is revoked at this second, the first revocation's time stays, and nothing else changes |
| Accounts.RevokeAllForUser | src/service/sessions.rs:121-131 | no session of the user stands, and no other session and no user is touched |
| Accounts.BumpTokenVersion | src/service/sessions.rs:133-150 | the version grows by one and is returned; a missing user is an error; a failing statement leaves the old row or the new one |
| Accounts.PurgeExpired | src/service/sessions.rs:156-171 | exactly the expired and long-revoked rows go, and are counted |
| Accounts.PurgeUnobservable | src/service/sessions.rs:77-171 | later validations answer as without the purge, except for a session expiring on the purge's own nanosecond |
| Accounts.PurgedOnItsLastInstant | src/service/sessions.rs:77-171 | a session that is still valid on the nanosecond on which it is purged |
| Accounts.Query | src/api/v1/login.rs:241-313 | the order of status, error count and password, and what each leaves in the row, also when a statement fails |
| Accounts.IssueSessionToken | src/api/v1/login.rs:217-239 | a token has the version of the row that was read, and the row and the session are in the file; what an error may leave there |
| Accounts.UpdateUser | src/api/v1/admin.rs:231-353 | every column but the token version and the error count is written; a new password raises the version by one, and it or a disabling leaves no session standing; all in one transaction, or nothing |
| Accounts.MergedByField | src/api/v1/admin.rs:274-305 | what the request gives replaces the column and what it leaves out stays; a new password lifts the duty to change it |
| Accounts.DeleteUser | src/api/v1/admin.rs:355-412 | user and sessions go together; a missing user undoes everything |
| Accounts.ResetPassword | src/api/v1/admin.rs:414-490 | the row has the new password and the duty to change it, the version is one higher, no session of the user stands, the other columns, users and sessions are untouched; or nothing at all |
| Accounts.ChangePassword | src/api/v1/user.rs:54-131 | each refusal in the code's order, and otherwise the row has the new password and no duty to change it, the version is one higher, no session of the user stands and all else is untouched |
| AccountRuns.StaleLoginNeverAccepted | src/api/v1/login.rs:217-239 | a login that read the user before a committed password change never yields a token that is accepted after it, whatever is interleaved |
| AccountRuns.OnlyTheNewPassword | src/api/v1/user.rs:99-116 | in the runs, after a committed change, reset or update of a password a login of the user, active and not locked out, gets a token exactly when it gives the new one |
| AccountRuns.PasswordStep | src/api/v1/admin.rs:457-475 | a step that commits a change or reset leaves row, version and sessions as the methods promise |
| AccountRuns.AcceptedExactly | src/api/auth.rs:81-86 | the second read of an authentication accepts exactly an active user at the token's version |
| AccountRuns.RevocationIsFinal | src/api/auth.rs:65-89 | after a logout, password change, deletion or disabling a token issued before is accepted at most once for each authentication then between its two reads, so never if there was none |
| AccountRuns.InFlightAtRevocation | src/api/auth.rs:65-89 | such an authentication, reading its user next, accepts the token exactly when the step was a logout and the user was acceptable; a new version, a deletion or a disabling refuses it |
| AccountRuns.LogoutExactly | src/api/auth.rs:65-89 | after a logout the token of an acceptable user is never accepted, over all that may follow, exactly when no authentication was between its two reads |
| AccountRuns.AcceptedAfterLogout | src/api/auth.rs:65-89 | a run from the empty database in which a token is accepted after its logout |
| AccountRuns.TracedStep | src/api/v1/admin.rs:310-338 | no interleaved step, stale write-backs included, lowers a token version |
| AccountRuns.LoginAsTheMethod | src/api/v1/login.rs:217-313 | the steps of a login with nothing in between leave the row, the session and the token of the statement-by-statement method |
| AccountRuns.PurgeAnywhere | src/service/sessions.rs:156-171 | a purge put anywhere in a run leaves every later token, acceptance and user as they were |
| SseTickets.ValidateIdentity | src/service/sse_tickets.rs:185-213 | the identity's user and session are as they were at issue, and may monitor |
| SseTickets.PurgeStale | src/service/sse_tickets.rs:70-80 | exactly the consumed and expired tickets go, and are counted |
| SseTickets.IssueTicket | src/service/sse_tickets.rs:83-132 | the order of refusals, one new ticket that lives from 5 to 60 seconds, as long as asked in between, and a rollback that also undoes the purge |
| SseTickets.ConsumeTicket | src/service/sse_tickets.rs:135-182 | which error a ticket gets, and that a success marks just that ticket and nothing else changes it |
| SseRuns.RedeemedOnceInTime | src/service/sse_tickets.rs:135-182 | in every run a ticket is redeemed at most once, for its own stream, within 60 seconds of its issue, as the identity it was issued to |
| SseRuns.RedeemedWhileGood | src/service/sse_tickets.rs:176-180 | a redemption needs a still valid identity; otherwise the table is unchanged |
| SseRuns.TicketDiesWithItsToken | src/service/sse_tickets.rs:135-213 | after a logout, password change, deletion or disabling no ticket of an identity with that token is ever redeemed |
| SseRuns.SpoiledNeverRedeemed | src/service/sse_tickets.rs:185-213 | nor any ticket whose session is gone or whose token version is outdated, whenever it was issued |
| SseRuns.AccountsOnward | src/service/sessions.rs:108-171 | whatever users and administrators do keeps a gone session gone and a version from falling, as those two ask |
| SseRuns.AtMostTenLive | src/service/sse_tickets.rs:65-113 | no user ever holds more than ten live tickets |
| SseRuns.AlikeIssue | src/service/sse_tickets.rs:83-132 | an issue answers alike, refusals included, on tables that differ by purged tickets |
| SseRuns.AlikeConsume | src/service/sse_tickets.rs:135-182 | a redemption answers alike, errors included, on tables that differ by purged tickets |
| SseRuns.PurgeAnywhere | src/service/sse_tickets.rs:70-80 | a purge put anywhere changes no later issue or redemption |
| SseRuns.SessionPurgeUnobservable | src/service/sse_tickets.rs:185-213 | purging sessions never changes the validity of an identity |
| Secrets.SealedOpens | src/secrets/envelope.rs:33-102 | what is sealed opens exactly under its key and associated data, with the drawn nonces and data key in it, and which error comes otherwise |
| Secrets.OpensExactly | src/secrets/envelope.rs:72-102 | what opens is exactly what was boxed under a data key that was boxed under the master key, and what each error tells of it |
| Secrets.RewrapMoves | src/secrets/envelope.rs:105-132 | re-wrapping moves a secret from one key to the other with the same contents |
| Secrets.AadDetermines | src/secrets/envelope.rs:22-24 | exactly when two pairs of purpose and name share their associated data |
| Secrets.AadInjective | src/secrets/envelope.rs:22-24 | they never do when the purposes have no bar |
| Secrets.AadCollides | src/secrets/envelope.rs:22-24 | two different pairs with the same associated data |
| SecretStore.PutSecret | src/secrets/store.rs:62-109 | the key registered and the secret stored under its name's id, and how far an error may have come |
| SecretStore.GetSecret | src/secrets/store.rs:112-119 | what the row opens to, or which error |
| SecretStore.DeleteSecret | src/secrets/store.rs:121-127 | the row goes, and whether it was there |
| SecretStore.RewrapAll | src/secrets/store.rs:158-222 | the whole rotation, counted, or the file as it was, at every crash point |
| SecretStore.RotationPreserves | src/secrets/store.rs:171-200 | every rotated secret keeps its contents under the new key only, and no other row changes |
| SecretStore.NothingLeftBehind | src/secrets/store.rs:171-207 | no row stays on the old key id exactly when the ids differ or there was none |
| SecretStore.RefinesPlainMap | src/secrets/store.rs:62-222 | any sequence of puts, gets, deletions and rotations answers as a plain map |
| Audit.BeginIntent | src/audit/store.rs:94-128 | a pending intent with a new id; an error may come after it was stored |
| Audit.CompleteIntent | src/audit/store.rs:152-209 | status, event and outbox row together or not at all |
| Audit.ReconcileStaleIntents | src/audit/store.rs:281-299 | exactly the stale pending intents become unknown, and are counted |
| Audit.PurgeAudit | src/audit/store.rs:303-334 | old rows go, children first, in one transaction, and are counted |
| Audit.ListPendingOutbox | src/audit/store.rs:226-243 | the due rows in id order up to the limit, a negative limit being none |
| Audit.DueExactly | src/audit/store.rs:231-237 | due is what has an event, was not delivered, and need not wait |
| Audit.DeliverPendingOutbox | src/audit/store.rs:338-354 | the listed rows are marked in order, up to the first failure |
| Audit.MarkOutboxDelivered | src/audit/store.rs:245-255 | that row is marked delivered at this time without an error, and nothing else changes |
| Audit.MarkOutboxRetry | src/audit/store.rs:257-279 | one more attempt and its error, and the row due again exactly from the retry time |
| Audit.ExecuteAudited | src/privileged/audited.rs:64-164 | the command runs only with its pending intent in the file; its outcome, told by exit code, timeout and refusal, is stored once or left pending |
| AuditRuns.StatusTellsEvent | src/audit/store.rs:152-334 | over every interleaving a final status means exactly one event, of that outcome and the same operation, and any other status none |
| AuditRuns.EventsAndRowsPair | src/audit/store.rs:152-354 | over every interleaving events and outbox rows match one to one and no reference dangles |
| AuditRuns.CommandRunsAfterItsIntent | src/privileged/audited.rs:76-93 | whenever a command runs its intent is stored and open, or was purged as too old |
| AuditRuns.PurgeKeepsRecent | src/audit/store.rs:303-334 | a purge keeps every event from the cutoff on, with its intent and its outbox row |
| AuditRuns.ListedInOrder | src/audit/store.rs:226-243 | the listed rows are due, ascending, and come before every due row left out |
| AuditRuns.BacklogDrains | src/audit/store.rs:338-354 | after any interleaving, k calls at any readings of the clock leave of a backlog no less and no more than stated; one of n that does not grow is empty exactly when k * limit >= n |
| AuditRuns.OperationAsTheMethod | src/privileged/audited.rs:64-164 | the steps of an operation with nothing in between leave the file as the statement-by-statement method does |
| SiteConfig.RenderApache | src/models/webserver/config.rs:102-130 | the text that `SitePrinted.TextPrinted` and the rows after it spell out, or the first validation error |
| SiteConfig.RenderCaddy | src/models/webserver/config.rs:132-153 | likewise for Caddy |
| SiteConfig.ParseApache | src/models/webserver/config.rs:155-199 | the loop is a fold of its line step over the lines |
| SiteConfig.ParseCaddy | src/models/webserver/config.rs:201-245 | the loop is a fold of its line step over the lines |
| SitePrinted.AcceptedExactly | src/models/webserver/config.rs:79-100 | a specification is printed exactly when its name is a proper file name, it has a port and a target, and its values hold nothing that could end a line, quotation or block |
| SitePrinted.TextPrinted | src/models/webserver/config.rs:102-153 | the order of the parts, and what is added last inside the block, less the blanks around it |
| SitePrinted.CertificatesPrinted | src/models/webserver/config.rs:107-111 | the certificate directive names the certificate file and the key directive the key file, where certbot or the panel keeps them |
| SitePrinted.ApacheProxyPrinted | src/models/webserver/config.rs:113-116 | the three proxy lines as Apache reads them |
| SitePrinted.ApacheRootPrinted | src/models/webserver/config.rs:117-125 | the document root and its directory block as Apache reads them |
| SitePrinted.CaddyPrinted | src/models/webserver/config.rs:140-149 | the proxy line or the file server's lines as Caddy reads them |
| SitePrinted.PortPrinted | src/models/webserver/config.rs:104 | a port is printed in full, without a leading zero |
| SitePrinted.FirstValueCounts | src/models/webserver/config.rs:163-243 | the first value given to a directive counts, and a TLS mark is not taken back once the name is known |
| SitePrinted.CommentsSkipped | src/models/webserver/config.rs:164-213 | comments say nothing, however they are indented |
| SitePrinted.TokenRead | src/models/webserver/config.rs:322-329 | a value is its first word, less the quotation marks around it |
| SiteRoundTrip.ApacheRoundTrip | src/models/webserver/config.rs:102-199 | every field that is read back from any printed site, and exactly when it is taken for a TLS one |
| SiteRoundTrip.WholeWithoutBlanks | src/models/webserver/config.rs:322-329 | proxy and root come back whole exactly when they have no whitespace |
| SiteRoundTrip.PortsStarting443 | src/models/webserver/config.rs:194-196 | the ports that mislead the parser |
| CaddyRoundTrip.CaddyRoundTrips | src/models/webserver/config.rs:132-245 | name, canonical port, TLS flag, proxy and root as they are read back from any printed site |
| CaddyRoundTrip.SiteOf | src/models/webserver/config.rs:215-230 | the address line gives back name, port and scheme |
| Text.LinesOfUnlines | src/models/webserver/config.rs:163-165 | splitting a text made of lines gives the lines |
| AtomicWrite.Directory.AtomicWriteBeneath | src/service/path_bounds.rs:887-984 | the target shows all the bytes with the old file's metadata, or what it showed before, and which errors mean which |
| AtomicWriteRuns.TargetIsWhole | src/service/path_bounds.rs:887-984 | with any number of writers, failed or stopped anywhere, a target shows its first content or one writer's complete bytes, and what it stands for is synced unless it is the first file untouched |
| AtomicWriteRuns.AnswersTellPublication | src/service/path_bounds.rs:943-983 | only success and a failed parent sync come after publication; any other error leaves no temporary file unless the unlink failed |
| AtomicWriteRuns.PublishedStaysWhole | src/service/path_bounds.rs:943-983 | a published file is never written again |
| AtomicWriteRuns.AloneAsTheMethod | src/service/path_bounds.rs:887-984 | one writer alone, run to its end by steps, has what the call-by-call method promises |
| PathBounds.NormalizeLexical | src/service/path_bounds.rs:452-471 | the names left when each `..` cancels the nearest one before it, below the root when there was one or nothing is left |
| PathBounds.NormalizedLeaves | src/service/path_bounds.rs:452-471 | pushing and popping from the front leaves what cancelling from the back does |
| PathBounds.NormalizedByPieces | src/service/path_bounds.rs:452-471 | a path normalised piece by piece ends at the same names, and exactly when at the same path |
| PathBounds.NormalIsFixed | src/service/path_bounds.rs:452-471 | an absolute path normalises to an absolute one; every normal form is its own normal form |
| PathBounds.MatchRoot | src/service/path_bounds.rs:473-496 | the longest root the path is under and the rest below it; an error exactly when there is none |
| PathBounds.BestIsInnermost | src/service/path_bounds.rs:473-496 | the chosen root is inside every other the path is under, for every path, exactly when the text lengths of the roots tell |
| PathBounds.NormalRootsTell | src/service/path_bounds.rs:67-92 | those of normalised roots do, as the roots of the file API are |
| PathBounds.LongSpellingMisleads | src/api/v1/log.rs:18-35 | a root with repeated slashes, taken as it is spelled, that is chosen although another is inside it |
| PathBounds.OpenBeneath | src/service/path_bounds.rs:826-860 | the walk over held directories is the recursive one |
| PathBounds.WalkIsChain | src/service/path_bounds.rs:826-860 | what is opened is the end of a chain of plain entries, no link among them, even while the tree changes |
| PathBounds.ChainIsWalked | src/service/path_bounds.rs:826-860 | and every such chain is opened to its end |

## Left out

- The HTTP handlers, middleware, routes, JSON shapes and the browser's interface: wiring.
- Docker, certbot, firewall and service commands: programs that cannot be seen from here.
- Cryptographic strength, password hashing, the signature and the expiry check of access tokens: an
  expired token is only refused more often than the model says.
- Text encodings around the SM4 cipher, and lossy decoding of log lines beyond its bound of three bytes
  for one.
- Md5Standard.EmptyDigest: assumes the table of RFC 1321, because the source computes it with the
  floating-point sine of the browser, which is not modelled; one digest of section A.5 is stated.
- Sm4Standard.Example: one example fixes the entries of the box that it looks up; the others are only
  data, on which no proof depends.
- Uniqueness of user names, except as one of the reasons a statement may fail, and the reuse of a
  deleted user's id: the claims about a user are made while the user exists.
- Overflow of the 32-bit token version, which takes two thousand million password changes.
- Columns that no claim depends on: salts, addresses, user agents, masked parameters, exit codes,
  durations and the times of updates.
- The conversion of times to text and back: times are whole seconds or milliseconds, in order.
- `atomic_write_beneath` from its resolved parent directory on; the order in which a file system makes
  names durable after a power failure.
- The single-call `openat2` path of `open_beneath_fd`: it answers in the kernel what the walk does step by step.
- Environment parsing, bind policy, argument validation and masking: easy members.
