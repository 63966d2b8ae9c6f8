# Verification of the Hwfa messenger's core logic

This project models the parts of Hwfa whose correctness is not visible in any single function: the relay's
store-and-forward hub, the discovery service's account store and its tokens, the client's SHA-256, base64, UTF-8 and
link-code routines, the typing indicator cache and the delivery ticks. `dafny verify dfyconfig.toml` checks everything.

How it is organised:

- **Code that changes state is imperative Dafny.** Hub, connection, discovery store, conversation store, typing store
  and correlation maps are classes; SHA-256, base64, UTF-8 and the decimal printer are loops over buffers. Each method
  is proved against a function on values, or against a property of its result.
- **Whole runs are step relations on values**, built from those same functions: `RelayRuns` (each locked section, each
  hand-over of one envelope to one buffer, each connection event and each crash with its restart is a step) and
  `DiscoveryRuns` (each locked section, and restarts). `Reachable` quantifies over every run from an empty start.
- **Parameters stand for the world.** Clock readings are non-decreasing arguments; user ids are fresh; codes, link
  tokens and the order in which Go walks a map are arbitrary, but `LinkTokens` needs every minted token to be new. The
  MAC is an uninterpreted function and the token payload codec an abstract injection into strings without a '.'. Disk
  writes and reads succeed and are atomic.
- **Answers are pinned from outside.** Where a step's result could be read off only from the function that computes it,
  a log of what callers did is kept beside the run (`Registrations`, `LinkTokens`, `Cooldown`, `Charges`,
  `RelayContents`, `ThreadRuns`), and the result is shown to be what that log says.
- **JavaScript numbers** are exact integers; the 32-bit operators reduce their operands and, except for `>>>`, give
  signed results (`JsNumber`). Go's `int` and `uint64` wrap at 64 bits (`Envelope`).

| module | models |
|---|---|
| `JsNumber`, `Numerals`, `Options` | 32-bit operators; digit strings as numbers; optional values |
| `Base64`, `Utf8`, `LinkCode` | the hand-written codecs |
| `Fips180`, `Sha256` | FIPS 180-4 as published; the JavaScript implementation |
| `Envelope` | decimal printing, routing keys, envelope ids |
| `RelayQueue`, `RelayHub` | one recipient's queue; the hub and its connections |
| `RelayRuns`, `RelayDrain`, `RelayGuarantees` | runs of a persistent hub and what holds in them |
| `RelayContents` | the same runs with a log of the envelopes given to the relay |
| `Token` | signing and verifying bearer tokens |
| `DiscoveryState`, `DiscoveryStore` | the store's operations on values, and in place |
| `DiscoveryRuns`, `DiscoveryGuarantees`, `RateLimit` | runs of the store and what holds in them |
| `Registrations`, `LinkTokens`, `Cooldown`, `Charges` | the same runs with a log of registrations, of link tokens, of codes made, of charges tried |
| `Typing` | typing indicators |
| `DeliveryStatus`, `Conversations`, `ConversationStore` | ticks, references, threads |
| `TickRuns`, `ThreadRuns` | runs of the message store together with the client's acks and reports: ticks, and what the threads hold |

Where the code does less than its documentation says, the theorem gives the exact condition:

- `sha256` is the FIPS 180-4 digest for inputs of up to 2^31 - 73 bytes. From there on the padding shifts leave 32
  bits and the buffer can no longer hold the data: the call throws (`PaddedSizeExact`, `Hash`).
- `itoa` prints the least 64-bit integer as `-`, because negating it leaves it negative. Printing is injective all the
  same, so routing keys and ids stay distinct over the whole 64-bit range (`DecimalParses`, `DecimalInjective`).
- UTF-8 and link codes round-trip exactly the strings whose high surrogates are each followed by a low one.
- A connection's writer starts only after `register` has handed over the queue. Until then its buffer holds the smaller
  of 64 and all that was offered to it, so of a longer drained queue exactly what does not fit is dropped
  (`DrainKeepsFirst64`, `DrainAcceptsAtMost64`, `DrainLosesTheRest`); of up to 1000 waiting envelopes all but 64 can be
  lost that way (`DrainLoses`).
- The 5000-hash budget per fixed hour is no bound on a sliding hour. What every run keeps within in an interval is one
  budget per window that can meet it, and no smaller number will do (`SlidingBound`, `SlidingBoundIsSharp`): 10000 can
  be had within two neighbouring instants (`TwiceTheBudget`).
- The cooldown lets a second code for a number through early exactly if an account with that number was deleted, or the
  store restarted, since the first (`CodesExactly`): the two can be made at the same moment (`TwoCodesAtOnce`).
- After an account is deleted its number resolves to nobody exactly if no other account was verified for it
  (`DeletedNumber`); registering does not ask, so there can be another (`DeletedNumberResolves`).
- A tick beyond "sent" goes back to an ack of the message's reference, and to one of this very message unless the
  reference was used again after a reset (`TickOfThisMessage`); then it need not (`OldAckTicks`).
- Pruning a queue is invisible later exactly when the clock has not gone back since (`InvisibleExactlyForward`).
- The link code's decoder throws exactly for codes that are malformed once padded (`Base64UrlDecode`).

## Model

| member | source | states |
|---|---|---|
| Base64.BuildLookup | apps/mobile/src/media/rnMediaCipher.ts:36-41 | The loop over the alphabet yields a table that inverts it and knows no other character |
| Base64.BytesToBase64 | apps/mobile/src/media/rnMediaCipher.ts:43-55 | The text is base64 of the bytes: its characters regroup the same bits, with zero bits and '=' filling up the end, and its length is 4 per started group of 3 |
| Base64.Base64Unique | apps/mobile/src/media/rnMediaCipher.ts:43-55 | That specification determines the text |
| Base64.Accumulate | apps/mobile/src/media/rnMediaCipher.ts:65 | The unmasked accumulator loses only its top bits on each step, in signed 32-bit arithmetic |
| Base64.StoredByte | apps/mobile/src/media/rnMediaCipher.ts:69 | The arithmetic shift and mask read 8 bits of the accumulator's two's complement, whatever its sign |
| Base64.RegroupKeepsValue | apps/mobile/src/media/rnMediaCipher.ts:64-71 | The bytes stored so far and the bits still pending spell the same number as the characters read |
| Base64.Base64ToBytes | apps/mobile/src/media/rnMediaCipher.ts:57-73 | For every input string, that is every sequence of UTF-16 code units, the result is as many whole bytes as its characters carry, from the front of their bits, and never runs past the allocated length |
| Base64.DecodingUnique | apps/mobile/src/media/rnMediaCipher.ts:57-73 | That specification determines the bytes |
| Base64.DecodeText | apps/mobile/src/media/rnMediaCipher.ts:43-73 | Decoding the base64 text of any bytes gives those bytes back |
| Utf8.Utf8Encode | packages/client/src/client.ts:595-618 | The output is the byte forms of section 3 of RFC 3629, one per code unit or surrogate pair |
| Utf8.Utf8Decode | packages/client/src/client.ts:621-644 | For every byte string the output is the code units its forms stand for, each of 16 bits |
| Utf8.RoundTripFrom | packages/client/src/client.ts:595-644 | From any position on, decoding undoes encoding exactly when the rest of the string is properly paired |
| Utf8.Utf8RoundTrip | packages/client/src/client.ts:595-644 | Decoding undoes encoding if and only if every high surrogate is followed by a low one |
| LinkCode.Base64UrlEncode | packages/client/src/client.ts:647-649 | A code has only URL-safe characters and, padded and put back to the standard alphabet, is base64 of the UTF-8 bytes |
| LinkCode.Atob | packages/client/src/client.ts:657-663 | The platform's decoder throws exactly for data that, without spaces and padding, have a foreign character or one character over whole groups; otherwise it decodes them |
| LinkCode.TextIsWellFormed | packages/client/src/client.ts:657-663 | It never throws on the base64 text of bytes |
| LinkCode.Base64UrlDecode | packages/client/src/client.ts:651-655 | Decoding pads to whole groups, throws exactly when the result is malformed, and otherwise reads the decoded bytes as UTF-8 |
| LinkCode.LinkCodeRoundTrip | packages/client/src/client.ts:647-655 | Reading a code written for a string gives it back if and only if its high surrogates are paired |
| LinkCode.ThereAndBack | packages/client/src/client.ts:483-496 | A code made on one device and read on another never throws, and carries the string over if and only if its high surrogates are paired |
| Fips180.RoundConstants0 | packages/client/src/sha256.ts:13-25 | The first 16 round constants are the cube-root fractions of the first primes |
| Fips180.RoundConstants1 | packages/client/src/sha256.ts:13-25 | So are the next 16 |
| Fips180.RoundConstants2 | packages/client/src/sha256.ts:13-25 | So are the next 16 |
| Fips180.RoundConstants3 | packages/client/src/sha256.ts:13-25 | So are the last 16 |
| Fips180.InitialConstants | packages/client/src/sha256.ts:31-38 | The initial hash value is the square-root fractions of the first eight primes |
| Fips180.ZeroBytesLeast | packages/client/src/sha256.ts:42-43 | No padding with fewer zero bytes ends on a 64-byte boundary |
| Fips180.PaddingInjective | packages/client/src/sha256.ts:42-49 | Distinct messages have distinct padded buffers |
| Sha256.RotrIsRotation | packages/client/src/sha256.ts:27 | The signed shift-and-or, made unsigned, is rotation of a word |
| Sha256.Sum5 | packages/client/src/sha256.ts:66 | A sum with signed terms, reduced once at the end, is the sum of the words modulo 2^32 |
| Sha256.SmallSigmas | packages/client/src/sha256.ts:57-58 | The signed exclusive ors are the standard's small sigma functions |
| Sha256.BigSigmas | packages/client/src/sha256.ts:64-67 | The signed exclusive ors are the standard's big sigma functions |
| Sha256.Choice | packages/client/src/sha256.ts:65 | The signed expression with a complement is the standard's Ch |
| Sha256.Majority | packages/client/src/sha256.ts:68 | The signed expression is the standard's Maj |
| Sha256.ExpandSchedule | packages/client/src/sha256.ts:53-60 | Whatever an earlier block left in the array, it then holds the message schedule of this block |
| Sha256.Compress | packages/client/src/sha256.ts:62-78 | The loop on eight variables computes the standard's 64 rounds |
| Sha256.PaddedSizeExact | packages/client/src/sha256.ts:43-45 | The shifted size is the standard's up to 2^31 - 73 bytes, and too small for the data for every longer input |
| Sha256.LengthWords | packages/client/src/sha256.ts:47-49 | The two 32-bit writes are the 64-bit length, nothing cut off |
| Sha256.Pad | packages/client/src/sha256.ts:40-49 | The buffer is the padding of section 5.1.1 of FIPS 180-4; there is none exactly for oversized input |
| Sha256.Output | packages/client/src/sha256.ts:90-93 | The eight words are written out big-endian, in order |
| Sha256.Hash | packages/client/src/sha256.ts:30-94 | The digest is that of section 6.2.2 of FIPS 180-4 for every input within the limit; every longer input throws |
| Envelope.Itoa | backend/relay/envelope.go:45-65 | The backwards fill stays inside 20 bytes and yields the decimal numeral |
| Envelope.DecimalParses | backend/relay/envelope.go:45-65 | The numeral parses back to the number exactly when the number is not the least integer |
| Envelope.DecimalInjective | backend/relay/envelope.go:45-65 | Distinct 64-bit integers print differently, without exception |
| Envelope.RouteKeyInjective | backend/relay/envelope.go:41-43 | No two devices share a key, even with ':' in user ids |
| Envelope.EnvelopeIdInjective | backend/relay/hub.go:200-201 | The ids of all 2^64 counter values differ |
| RelayQueue.Prune | backend/relay/hub.go:98-108 | The loop keeps the newest at most 1000 unexpired entries, in order |
| RelayQueue.PrunedIsSuffix | backend/relay/hub.go:98-108 | Of a queue in time order it keeps a suffix |
| RelayQueue.PrunedIsLongest | backend/relay/hub.go:98-108 | No longer suffix is within the cap and free of expired entries |
| RelayQueue.PruneTwice | backend/relay/hub.go:93-118 | What was pruned earlier would be pruned now |
| RelayQueue.PruneEarly | backend/relay/hub.go:93-118 | Pruning at any moment between additions changes nothing observed at that moment or later |
| RelayQueue.EarlierClock | backend/relay/hub.go:98-104 | Whenever the clock runs backwards there is a queue for which that fails |
| RelayQueue.InvisibleExactlyForward | backend/relay/hub.go:93-118 | For all queues and additions at once it holds if and only if the clock has not gone back |
| RelayHub.DrainKeepsFirst64 | backend/relay/client.go:33-39 | Handing a whole queue to an empty buffer keeps its first 64 envelopes |
| RelayHub.Client.Send | backend/relay/client.go:33-39 | A message is appended, or dropped when 64 are waiting |
| RelayHub.Client.Submit | backend/relay/client.go:80-81 | A routed envelope is acked to its sender with its id and reference, after it was handed over |
| RelayHub.Client.HandleFrame | backend/relay/client.go:72-102 | A sent envelope is routed as it is but under the authenticated sender, and acked; receipts are forwarded only with a target and a known status; other frames change nothing |
| RelayHub.Hub.PruneQueueLocked | backend/relay/hub.go:93-118 | One key's queue becomes its pruned form, or is removed when empty; the result says whether anything changed |
| RelayHub.Hub.PersistLocked | backend/relay/hub.go:121-138 | The file of a persistent hub holds the counter and all queues; an in-memory hub writes nothing |
| RelayHub.Hub.Persistent | backend/relay/hub.go:141-162 | Loading restores the counter and every queue, pruned at its own clock reading, in any map order |
| RelayHub.Hub.RegisterLocked | backend/relay/hub.go:166-175 | The connection replaces any older one and takes over the pruned queue; nothing is written when nothing is handed over |
| RelayHub.Hub.Register | backend/relay/hub.go:166-182 | The queued envelopes are then offered to the connection's buffer in order; the file is written exactly when there were any |
| RelayHub.Hub.Unregister | backend/relay/hub.go:184-191 | Only the connection that is still registered is removed |
| RelayHub.Hub.RouteLocked | backend/relay/hub.go:196-212 | The next id is stamped on; the envelope goes to the connection found, or is queued and the queue pruned; the state is written |
| RelayHub.Hub.Route | backend/relay/hub.go:196-231 | The connection found is offered the envelope, no other buffer changes |
| RelayHub.Hub.ForwardStatus | backend/relay/hub.go:237-246 | A status reaches only the target's connection, if it has one |
| RelayRuns.RouteQueue | backend/relay/hub.go:204-212 | Routing keeps queue, file and log of additions alike from then on |
| RelayRuns.RegisterQueue | backend/relay/hub.go:166-175 | A drain that hands nothing over leaves on disk only what has expired |
| RelayRuns.RestartQueue | backend/relay/hub.go:141-162 | A restart restores what the lost queue would have looked like |
| RelayRuns.StepKeeps | backend/relay/hub.go:93-231 | Every step keeps the invariant on queues, file, connections, accounting and ids |
| RelayRuns.RunKeeps | backend/relay/hub.go:93-231 | So does every run |
| RelayDrain.DrainAcceptsAtMost64 | backend/relay/main.go:128-130 | Until a connection's writer starts, at most 64 envelopes are accepted, however hand-overs interleave |
| RelayDrain.DrainLosesTheRest | backend/relay/main.go:128-130 | Until then the buffer holds the smaller of 64 and everything offered; if that was envelopes only, so many were accepted |
| RelayDrain.DrainLoses | backend/relay/main.go:128-130 | For every number of waiting envelopes up to 1000 there is a run that drains them all, accepts the first 64 and drops the rest |
| RelayGuarantees.DrainIsOneShot | backend/relay/hub.go:93-118 | What a connecting device is handed is the one-shot prune of everything queued for it since its last drain |
| RelayGuarantees.DiskAgrees | backend/relay/hub.go:121-182 | File and memory differ at most in expired entries, and agree on the counter |
| RelayGuarantees.FileCanLag | backend/relay/hub.go:169-174 | A run after which file and memory do differ, in an expired entry |
| RelayGuarantees.ConnectedMeansDrained | backend/relay/hub.go:166-212 | Nothing is queued for a connected device, and its connection is its newest |
| RelayGuarantees.OldConnectionLeaves | backend/relay/hub.go:184-191 | A connection that leaves changes the hub exactly when it is the newest one |
| RelayGuarantees.IdsDistinct | backend/relay/hub.go:199-212 | No id is issued twice, restarts included, for the first 2^64 envelopes |
| RelayGuarantees.InExactlyOnePlace | backend/relay/hub.go:196-231 | Every routed envelope is queued, removed, on its way or settled: exactly one of these, and only at its recipient |
| RelayGuarantees.CutExactly | backend/relay/hub.go:93-118 | Pruning cuts off exactly the entries that have expired or have 1000 newer ones behind them |
| RelayGuarantees.RemovedByPruning | backend/relay/hub.go:93-231 | On every step of every run, crashes included, the envelopes that join the removed ones are exactly those pruning cuts off the recipient's queue |
| RelayGuarantees.HandedOnce | backend/relay/hub.go:166-231 | No two hand-overs of a run, crashes included, carry the same id |
| RelayGuarantees.OnlyToItsRecipient | backend/relay/hub.go:196-212 | An envelope only reaches connections of the device it is addressed to |
| RelayContents.IssuedExactly | backend/relay/hub.go:196-212 | Of every envelope given to the relay nothing changes but the id, which is that of its number |
| RelayContents.HeldWasGiven | backend/relay/hub.go:196-231 | Whatever is queued for a device, on its way to it or settled is such an envelope, given for that device |
| RelayContents.DeliveredWasGiven | backend/relay/hub.go:214-216 | So is whatever waits in a connection's buffer |
| RelayContents.PushExactly | backend/relay/hub.go:204-228 | A push goes out exactly for a recipient without a connection that has registered a token since the last restart, to the last one |
| Token.SignedParses | backend/authtoken/token.go:45-74 | A signed token reads back as what was signed until its last whole second is over, and not after |
| Token.Truncation | backend/authtoken/token.go:46-72 | Cutting the expiry to seconds never extends it and shortens it by less than a second |
| Token.SignedVerifies | backend/authtoken/token.go:77-94 | Verification succeeds exactly before expiry; as an access token exactly for that kind |
| Token.VerifiedIsSigned | backend/authtoken/token.go:52-74 | A token is accepted if and only if it is an unexpired payload followed by its own tag |
| Token.ResolveSecret | backend/authtoken/token.go:103-111 | In production the development secret never stands in for a missing one |
| DiscoveryState.LoadAfterPersist | backend/discovery/store.go:191-260 | Loading what was written, in any order, restores the accounts |
| DiscoveryState.LoadedExactly | backend/discovery/store.go:241-258 | Every record of a file is loaded as it is, one without an account id as its own account |
| DiscoveryState.TokensExactly | backend/discovery/store.go:22-31 | The access token of an issued pair verifies for its device for 15 minutes, the refresh token for 30 days, cut to whole seconds, and the refresh token never passes for an access token |
| DiscoveryState.ScanMembers | backend/discovery/store.go:624-634 | The scan finds a submitted hash if and only if some verified account holds it |
| DiscoveryState.ScanOnce | backend/discovery/store.go:624-634 | and finds it once |
| DiscoveryState.ScanInOrder | backend/discovery/store.go:624-634 | in the order in which hashes were first submitted |
| DiscoveryStore.Store.PersistLocked | backend/discovery/store.go:191-222 | The file lists every account once |
| DiscoveryStore.Store.Load | backend/discovery/store.go:223-260 | Every record of the file is stored under its own id, one without an account id as its own account |
| DiscoveryStore.Store.Persistent | backend/discovery/store.go:152-260 | Loading fills the accounts and nothing else |
| DiscoveryStore.Store.Register | backend/discovery/store.go:279-311 | Within the cooldown nothing changes; otherwise a fresh unverified account, its code and the cooldown are stored and written |
| DiscoveryStore.Store.Verify | backend/discovery/store.go:317-345 | Each outcome of checking a code, with its effect on code, account, file and tokens |
| DiscoveryStore.Store.RefreshTokens | backend/discovery/store.go:351-363 | Tokens are issued exactly for a valid refresh token of a stored verified device |
| DiscoveryStore.Store.CreateLinkToken | backend/discovery/store.go:367-373 | The token is stored for the account for five minutes |
| DiscoveryStore.Store.LinkDevice | backend/discovery/store.go:379-418 | A live token of a stored account becomes one verified device without a phone hash; other attempts add nothing |
| DiscoveryStore.Store.DevicesFor | backend/discovery/store.go:423-433 | Every verified device of the account, once each |
| DiscoveryStore.Store.AccountIDOf | backend/discovery/store.go:437-445 | The account of a verified device, of no other |
| DiscoveryStore.Store.DropFamily | backend/discovery/store.go:459-466 | The deletion loop, in any order, removes the account's devices with their codes and cooldowns |
| DiscoveryStore.Store.DeleteAccount | backend/discovery/store.go:452-469 | All devices of the caller's account go, and the file is written |
| DiscoveryStore.Store.RemoveDevice | backend/discovery/store.go:498-516 | Only a linked device of the caller's own account is removed |
| DiscoveryStore.Store.BundleFor | backend/discovery/store.go:533-564 | A verified device's bundle with the first one-time key, which is consumed and written back |
| DiscoveryStore.Store.PoolSize | backend/discovery/store.go:568-576 | The size of the stored pool |
| DiscoveryStore.Store.AddOneTime | backend/discovery/store.go:579-589 | Keys are appended in order and written |
| DiscoveryStore.Store.AllowIntersect | backend/discovery/store.go:594-608 | A refused charge costs nothing; a past window is replaced even then |
| DiscoveryStore.Store.Intersect | backend/discovery/store.go:613-636 | The matches are the naive scan's, in first-occurrence order, each with a verified holder of its hash, for any map order |
| DiscoveryRuns.LinkedIsLeaf | backend/discovery/store.go:498-516 | Nothing hangs below a linked device |
| DiscoveryRuns.FamilyIsClosed | backend/discovery/store.go:452-469 | No remaining device refers to a deleted one |
| DiscoveryRuns.StepKeeps | backend/discovery/store.go:279-608 | Every step keeps the forest, the ids, the issued tokens' times, the codes and the key pools consistent |
| DiscoveryRuns.RunKeeps | backend/discovery/store.go:279-608 | So does every run, restarts included |
| DiscoveryGuarantees.DeviceForest | backend/discovery/store.go:84-87 | Every device hangs directly below a stored device that is its own account, verified if it has linked devices; the file equals the memory |
| DiscoveryGuarantees.DeletesExactlyTheAccount | backend/discovery/store.go:452-469 | Deletion works for every stored caller and no other; it removes the account's devices, all of them, and leaves every other device as it was, below a stored account |
| DiscoveryGuarantees.DeletedNumber | backend/discovery/store.go:447-469 | The deleted account's number has no cooldown, and resolves to somebody if and only if another device was verified for it |
| DiscoveryGuarantees.DeletedNumberResolves | backend/discovery/store.go:279-311 | A run in which a number still resolves after an account verified for it can be deleted, because a second account registered it |
| DiscoveryGuarantees.RemovesExactlyTheDevice | backend/discovery/store.go:498-516 | Revocation works if and only if the target is a linked device on the stored caller's own account; it then removes that one device and records when, and otherwise changes nothing |
| DiscoveryGuarantees.DeadLink | backend/discovery/handlers.go:195-206 | A link token of a removed account attaches nothing, now or later |
| DiscoveryGuarantees.MatchesArePrimary | backend/discovery/store.go:398-401 | A match for a non-empty hash is a primary device |
| DiscoveryGuarantees.RemovedStays | backend/discovery/store.go:317-418 | After a device's removal no step of any run issues a token for it |
| DiscoveryGuarantees.RevokedTokensDie | backend/discovery/store.go:18-31 | From 15 minutes after removal on, neither token of any pair ever issued for a device verifies as an access token, and the device is not there to have its refresh token honoured |
| DiscoveryGuarantees.FiveGuesses | backend/discovery/store.go:329-335 | At most five wrong guesses meet a code; five burn it; an account whose code was not used is unverified |
| DiscoveryGuarantees.FateIsFinal | backend/discovery/store.go:317-345 | What became of a code never changes again |
| DiscoveryGuarantees.DeadCode | backend/discovery/store.go:53-60 | A burned, expired, used, cancelled or lost code verifies nothing ever again |
| DiscoveryGuarantees.PrekeysConserved | backend/discovery/store.go:533-589 | Keys handed out followed by the pool are the registered keys followed by all uploads |
| DiscoveryGuarantees.NextPrekey | backend/discovery/store.go:554-562 | The next key handed out is the first uploaded one not yet handed out |
| DiscoveryGuarantees.UploadSize | backend/discovery/store.go:579-589 | An upload is answered with the number of keys uploaded and not handed out |
| Registrations.CodeExactly | backend/discovery/store.go:317-345 | A code verifies a device if and only if it is the code made for its registration at most ten minutes before, and that code is neither used, burned, found expired, cancelled nor lost |
| Registrations.GuessExactly | backend/discovery/store.go:317-345 | Trying a code verifies at most that device; a wrong guess in time counts one and the fifth burns the code, a late one expires it |
| Registrations.StoredExactly | backend/discovery/store.go:279-418 | Exactly the devices registered or linked and not removed are stored, each with the account, number, device number and keys it came with |
| Registrations.VerifiedExactly | backend/discovery/store.go:437-445 | Exactly the stored devices that were linked or whose code was used are verified and resolve, to the account they came with |
| Registrations.BundleExactly | backend/discovery/store.go:533-564 | Exactly the verified devices have a bundle, with the keys and device number they came with |
| Registrations.FoundExactly | backend/discovery/store.go:613-636 | A number is found if and only if a device that registered it used its code and has not been removed |
| RateLimit.WindowsCount | backend/discovery/store.go:66-70 | The number of windows that can meet an interval, in closed form |
| RateLimit.SinceBound | backend/discovery/store.go:594-608 | Windows a full hour apart bound what is allowed from any moment on |
| RateLimit.ChargeKeeps | backend/discovery/store.go:594-608 | Each charge keeps windows apart, within budget and equal to what was allowed in them |
| RateLimit.BusiestIsBusy | backend/discovery/store.go:594-608 | A run that opens a window with an empty charge, then spends a budget at its end and at the start of every further window, is allowed all of them |
| RateLimit.SlidingBoundIsSharp | backend/discovery/store.go:594-608 | A number bounds what every run is allowed in an interval if and only if it is at least one budget per window that can meet the interval |
| RateLimit.TwiceTheBudget | backend/discovery/store.go:66-70 | Two budgets can be spent within two neighbouring instants |
| RateLimit.SlidingBound | backend/discovery/store.go:594-608 | Over any interval no account is allowed more than one budget per window that can meet it, in every reachable state |
| Charges.ChargedExactly | backend/discovery/store.go:594-608 | A request is let through if and only if its hashes and those already let through in its hourly window are 5000 at most |
| LinkTokens.TokensKeep | backend/discovery/store.go:367-418 | Every step keeps the log of minted tokens, live tokens and linked devices in line with the store |
| LinkTokens.OneDevicePerToken | backend/discovery/store.go:414 | One minted token attaches at most one device in the whole life of the store |
| LinkTokens.LinkedByToken | backend/discovery/store.go:33-51 | Every linked device was attached by a token minted for its account at most five minutes before |
| LinkTokens.LinksExactly | backend/discovery/store.go:379-414 | A token attaches a device, to the account it was minted for, if and only if it was minted since the last restart, has attached none, is at most five minutes old and its account is still stored |
| Cooldown.CodesApart | backend/discovery/store.go:275-287 | In any run two codes for one number are 30 seconds apart unless an account with it was deleted, or the store restarted, in between |
| Cooldown.CodesExactly | backend/discovery/store.go:279-287 | A registration is let through if and only if each code made for the number in the last 30 seconds was followed by such a deletion or a restart |
| Cooldown.TwoCodesAtOnce | backend/discovery/store.go:447-469 | A run in which a number is given two codes at the same moment, its account deleted in between |
| Typing.WithSenderMember | apps/mobile/src/store/typing.ts:25-34 | A signal sets one sender's expiry and leaves the others alone |
| Typing.WithoutSenderMember | apps/mobile/src/store/typing.ts:34-36 | A stop removes one sender and no other |
| Typing.StaleSnapshot | apps/mobile/src/store/typing.ts:53-59 | A snapshot taken earlier holds every sender that is live now and only senders still in the map |
| Typing.LiveExactly | apps/mobile/src/store/typing.ts:66-73 | A snapshot computed now shows exactly the senders that have not expired |
| Typing.SignalledExactly | apps/mobile/src/store/typing.ts:25-37 | A signal makes one sender live for six seconds or removes it, and changes no other sender and no other conversation |
| Typing.SignalledOrder | apps/mobile/src/store/typing.ts:25-34 | A refresh keeps the sender's place; a new sender comes last |
| Typing.LeftNext | apps/mobile/src/store/typing.ts:90-95 | Deleting while walking over the senders skips nothing |
| Typing.TypingStore.ReceiveTyping | apps/mobile/src/store/typing.ts:25-42 | The map changes as signalled, the snapshot is recomputed, the timer runs while the map is not empty; listeners are told unless nothing was live |
| Typing.TypingStore.GetTyping | apps/mobile/src/store/typing.ts:53-59 | Cached or not, the answer misses no live sender and shows none that stopped |
| Typing.TypingStore.Invalidate | apps/mobile/src/store/typing.ts:76-81 | The snapshot's contents are those of the moment, whether or not the array is kept |
| Typing.TypingStore.Expire | apps/mobile/src/store/typing.ts:90-95 | The inner loop leaves exactly the unexpired senders, in order |
| Typing.TypingStore.Sweep | apps/mobile/src/store/typing.ts:86-104 | After a sweep, in any order, exactly the unexpired senders are left, all snapshots are consistent, and the timer runs only if something is left |
| Typing.TypingStore.Clear | apps/mobile/src/store/typing.ts:45-50 | Map and snapshots are emptied together |
| Typing.SnapshotsAfterSweep | apps/mobile/src/store/typing.ts:86-104 | After a sweep, even if the clock moved during it, every snapshot is exactly the senders left, in insertion order and live, unless one of them has expired meanwhile |
| Typing.NothingLeftHasExpired | apps/mobile/src/store/typing.ts:86-95 | At the sweep's own reading nothing that is left has expired |
| Typing.GoneAfterSweep | apps/mobile/src/store/typing.ts:83-98 | An indicator survives a sweep if and only if it has not expired |
| DeliveryStatus.RunningMaximum | apps/mobile/src/store/conversations.ts:419-436 | After any updates every message has the highest-ranked of its first status and its own updates, and is otherwise unchanged |
| DeliveryStatus.BestIsMaximum | apps/mobile/src/store/conversations.ts:87-92 | That status is an upper bound and one of them |
| DeliveryStatus.OrderDoesNotMatter | apps/mobile/src/store/conversations.ts:418-436 | Reordered or repeated updates leave the same store |
| DeliveryStatus.BoundByAck | packages/client/src/client.ts:556-561 | An envelope is bound only to a reference that an ack named |
| DeliveryStatus.EmittedFrom | packages/client/src/client.ts:564-571 | An update beyond "sent" comes from a report about an envelope acked before |
| DeliveryStatus.BoundExactly | packages/client/src/client.ts:556-561 | An envelope is bound to exactly the reference that its latest ack with one named |
| DeliveryStatus.EmittedExactly | packages/client/src/client.ts:556-571 | An update comes exactly from an ack of its reference or a report on an envelope then bound to it |
| DeliveryStatus.TickNeedsAck | packages/client/src/client.ts:555-571 | From any point of a session on, a tick beyond "sent" shows an ack that bound this message's reference to the envelope reported later |
| Conversations.RefInjective | apps/mobile/src/store/conversations.ts:222 | References of different counter values differ, whatever the clock's part is |
| Conversations.SendKeepsRefs | apps/mobile/src/store/conversations.ts:213-231 | Sending keeps references unique |
| Conversations.ReceiveKeepsRefs | apps/mobile/src/store/conversations.ts:589-606 | Receiving keeps references unique |
| Conversations.StatusKeepsRefs | apps/mobile/src/store/conversations.ts:419-436 | Updates keep references unique |
| Conversations.ReadKeepsRefs | apps/mobile/src/store/conversations.ts:438-463 | Marking read keeps references unique |
| Conversations.ReceiptsOnce | apps/mobile/src/store/conversations.ts:444-454 | After a thread was marked read no receipt is due |
| Conversations.ReceiptsExactly | apps/mobile/src/store/conversations.ts:444-454 | A receipt is asked for exactly for each inbound envelope not yet receipted, from its real sender |
| Conversations.CreateKeepsRefs | apps/mobile/src/store/conversations.ts:237-245 | Creating a group keeps references unique |
| Conversations.GroupReceiveKeepsRefs | apps/mobile/src/store/conversations.ts:561-575 | Receiving a group message keeps references unique |
| TickRuns.NewMark | apps/mobile/src/store/conversations.ts:220-224 | A new reference is no other stored message's, so every other message keeps its mark |
| TickRuns.ArriveKeeps | apps/mobile/src/store/conversations.ts:419-436 | An ack or report raises the message it is about, and no other, to its new maximum |
| TickRuns.StepKeeps | apps/mobile/src/store/conversations.ts:213-512 | Every action keeps references unique, the bindings those of the events so far, and every tick at its maximum |
| TickRuns.EveryTick | apps/mobile/src/store/conversations.ts:418-436 | After any run references are unique and every sent message's status is the maximum of "sending" and the updates of its reference since it was sent |
| TickRuns.TickExactly | packages/client/src/client.ts:556-571 | After any run a sent message shows "read" if such a report came since for an envelope whose latest ack named its reference, else "delivered" if one of that did, else "sent" if its reference was acked, else "sending" |
| TickRuns.TickBeyondSent | packages/client/src/client.ts:555-571 | After any run a tick beyond "sent" shows an ack of this message's reference and, after the message was sent, a report on the envelope the ack named |
| TickRuns.TickOfThisMessage | packages/client/src/client.ts:555-571 | If no ack of its reference came before a message with it was sent, and only one was, that ack came after this message was sent, so it is of this message |
| TickRuns.ReusedAfterReset | apps/mobile/src/store/conversations.ts:501-507 | Without a reset no reference is ever sent twice |
| TickRuns.OldAckTicks | apps/mobile/src/store/conversations.ts:501-507 | A run with a reset in which a message is ticked "read" though no ack arrived after it was sent |
| ThreadRuns.PagesExactly | apps/mobile/src/store/conversations.ts:213-630 | After any run there is one thread for each peer sent to or received from and each group created since the last reset; a thread holds, in order and field by field, what was sent and received, and counts as unread what came since it was last read |
| ThreadRuns.IdInjective | apps/mobile/src/store/conversations.ts:623-625 | Messages of different numbers have different ids |
| ConversationStore.Store.Make | apps/mobile/src/store/conversations.ts:623-625 | The id uses the counter, which moves on |
| ConversationStore.Store.Send | apps/mobile/src/store/conversations.ts:213-231 | The message is appended to the peer's thread, made if need be, with a new reference and "sending"; for a group with neither |
| ConversationStore.Store.Receive | apps/mobile/src/store/conversations.ts:589-606 | An inbound text is appended and counted as unread |
| ConversationStore.Store.CreateGroup | apps/mobile/src/store/conversations.ts:237-245 | The thread is made if need be and becomes a group's |
| ConversationStore.Store.ReceiveGroup | apps/mobile/src/store/conversations.ts:561-575 | A group message is appended to the group's thread under its real sender and counted as unread |
| ConversationStore.Store.ApplyStatus | apps/mobile/src/store/conversations.ts:419-436 | The first message with the reference is raised, never lowered; listeners are told exactly when something changed |
| ConversationStore.Store.MarkRead | apps/mobile/src/store/conversations.ts:438-463 | Receipts are asked for each inbound envelope not yet receipted; listeners are told exactly when something changed |
| ConversationStore.Store.Reset | apps/mobile/src/store/conversations.ts:501-512 | Threads and counter start over together |
| ConversationStore.Correlator.HandleAck | packages/client/src/client.ts:556-561 | A named ack binds both ways and reports "sent"; an unnamed one does nothing |
| ConversationStore.Correlator.HandleStatus | packages/client/src/client.ts:564-567 | A report becomes an update of the bound reference, if there is one |

## Left out

- Every locked section of the discovery store reads the clock once in the model; the code may read it two or three times
  within one section. The relay's route reads it twice, its load once per recipient and the refresh check once before
  the lock, as in the code.
- RelayRuns.StepKeeps: a register's hand-overs may happen in any order relative to each other; the code sends them in
  queue order, and the model claims no order across a reconnect.
- A hand-over to a closed connection (a send on a closed channel) is an outcome of its own; what the panic does to the
  process is not modelled.
- Restarts are modelled for hubs and stores that have a file; one without simply starts empty.
- LinkCode.Atob: the platform function as the WHATWG Infra standard defines it; runtimes without `atob` and `btoa`, where
  the code falls back to `Buffer`, are not modelled. For `btoa` the mobile client's encoder stands in: its result is
  the only base64 text of the bytes.
- The one-time codes' and ids' randomness, the HMAC and the JSON codec: parameters, an uninterpreted function and an
  abstract injection. Nothing is claimed about forging or guessing.
- Typing.TypingStore.Sweep: which array reference a snapshot is, and the interval timer firing on time, are not modelled;
  a conversation's senders are a value in the map rather than a map object of their own.
- ConversationStore.Store.Send: the list snapshot sorted by activity, media fields and `patch`, stars, a group's name,
  members and fan-out, persistence and hydration are not modelled; references are unique within the store since its
  last reset.
- ConversationStore.Store.Receive: bodies that are typing, call, status or media payloads take other paths, which are not
  modelled.
- Listing one's own devices and the user lookup by token: they add only easy members.
- HTTP handlers, WebSocket upgrade, push, SMS, environment, libsignal, AES-GCM, WebRTC, native modules and screens.
- Scam detection, reconnect backoff, calls, presigning, safety numbers and phone normalisation.
