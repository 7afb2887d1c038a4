# zdao front end — a verified model of its decision logic

zdao is a web front end for encrypted voting on the ZDAO contract. Ballots are encrypted
with fully homomorphic encryption (FHE) through a relayer SDK. Tallies stay encrypted
until someone reveals them, and the front end then decrypts the two counts and submits
them to the contract with a decryption proof. This project models, in Dafny, the
sequential logic that sits between the wallet, the relayer and the contract:

- the decryption cache kept in `localStorage` with a 24-hour lifetime, the yes=0 / no=1
  vote encoding and the FHE error translation (`lib/utils.ts`, module `Utils`);
- the `0x`+hex encoding of ciphertext handles and proofs, the ABI encoding of two `uint8`
  counts (`Encoding`), and the FHE operations: `encrypt`, `publicDecrypt`,
  `publicDecryptMultiple` with its three reply shapes, and `userDecryptMultiple`
  (`hooks/useFHEOperations.ts`, `FheOperations`);
- the ZDAO contract as the front end sees it: a stub class that logs every call and
  reverts as the contract's tests and the front end's error handling say (`Ledger`);
- casting a ballot, revealing a tally, deciding when to submit decrypted counts, and
  reading one's own ballot and the published counts (`hooks/useVoting.ts`, `Voting`);
- the proposal loader, which settles per proposal whether the published or the decrypted
  counts are shown and then lists the proposals newest first (`hooks/useProposals.ts`,
  `Proposals`);
- the page's vote-status aggregator with its single-flight guard and in-flight set, the
  local update after a vote, and the pagination arithmetic (`app/page.tsx`, `Page`);
- the module-level store shared by every hook (`hooks/web3State.ts`, `Web3State`);
- the query that initialises the relayer SDK once, checks the config and creates the
  instance, and its bounded retry predicate (`hooks/useZamaRelayerInstance.ts`,
  `RelayerInstance`).

Supporting modules: `Wrappers` (Option and Result), `Js` (the JavaScript values the code
inspects, truthiness, property reads, `Number(...)` with NaN, `Error` objects) and `Strings` (`startsWith`,
`includes`, `join` and the order that `Array.prototype.sort` uses, taken over characters;
it agrees with JavaScript's UTF-16 code-unit order for characters below U+10000).

State the source mutates is held in classes: `Web3State.Store`, `Utils.LocalStorage`,
`Ledger.Zdao`, `FheOperations.Relayer`, `FheOperations.FheClient`, `Page.VoteStatus` and
`RelayerInstance.Session`. Each of their methods is proved against a function of the old
state. Properties are then proved about those functions as lemmas.

External effects enter the model as parameters:

- the clock (`Date.now()`, `new Date()`) is `now`;
- the relayer's cryptography is a set of fixed reply functions held by `Relayer`;
- the contract's acceptance of a decryption proof is the `accepts` function of `Zdao`;
- transport failures and unknown reverts are the `faults` map of `Zdao`;
- `initSDK()` and `createInstance(config)` are outcomes passed to `Session.QueryFn`;
- in `checkVotingStatus`, `hasUserVoted`, `getMyVote` and `userDecryptMultiple` are
  functions passed in.

## Model

| member | source | states |
|---|---|---|
| Utils.VoteOptionLabel | lib/utils.ts:33-42 | The label is always one of "Yes", "No", "Unknown". |
| Utils.LabelKnownIffValid | lib/utils.ts:8-11 | A value gets a label other than "Unknown" exactly when `validateVoteValue` accepts it (0 or 1), and yes and no get different labels. |
| Utils.CleanWithout | lib/utils.ts:13-27 | A text without the characters that the three SDK failure texts need cannot contain any of them. |
| Utils.FriendlyTextsClean | lib/utils.ts:13-27 | None of the four replacement texts contains one of the three failure substrings. |
| Utils.HandleFheError | lib/utils.ts:13-27 | The result is never empty. The first match decides: a message mentioning `getCoprocessorSigners` gets the network text, else one mentioning the client-side failure gets the server-side text, else one mentioning the CDN failure gets the CDN text. An empty message gets "Unknown FHE error occurred". The message is kept exactly when it is non-empty and matches none of the three failures. |
| Utils.HandleFheErrorIdempotent | lib/utils.ts:13-27 | Translating an already translated message changes nothing. |
| Utils.DecryptCacheKey | lib/utils.ts:44-54 | The key is the `decrypt_cache_` prefix followed by the handle itself, so distinct handles get distinct keys. |
| Utils.DecryptMultipleCacheKey | lib/utils.ts:56-59 | The key starts with `decrypt_cache_multiple_`. |
| Utils.MultipleKeyOrderFree | lib/utils.ts:56-59 | Two lists holding the same handles, in any order, get the same batch key. |
| Utils.KeySpacesDisjoint | lib/utils.ts:52-59 | A single-handle key for a `0x` handle never equals a batch key. |
| Utils.Read | lib/utils.ts:61-80 | A read hits exactly when the key holds a well-formed entry that is at most 24 hours old (strict `>` comparison), and it then yields the stored value. |
| Utils.AfterRead | lib/utils.ts:71-74 | A read removes only the key it looked up, and only when that entry has expired. Every other key keeps its entry. |
| Utils.Sweep | lib/utils.ts:100-124 | The sweep removes exactly the prefixed keys whose entry is unparseable or expired. Kept entries are unchanged. |
| Utils.SweepAll | lib/utils.ts:126-138 | Clearing all keeps exactly the unprefixed keys, with their entries unchanged. |
| Utils.SweepIdempotent | lib/utils.ts:100-124 | A second sweep at the same time removes nothing more. |
| Utils.SweepPreservesReads | lib/utils.ts:100-124 | A sweep changes no read at that time, and never adds or removes an unprefixed key. |
| Utils.SweepAllForgets | lib/utils.ts:126-138 | After clearing all, every prefixed key misses and every unprefixed key reads as before. |
| Utils.LocalStorage.constructor | lib/utils.ts:61-138 | The storage starts with the given availability, capacity and items. |
| Utils.LocalStorage.GetDecryptCache | lib/utils.ts:61-80 | Without a window, the read yields nothing and changes nothing. Otherwise it yields `Read` and leaves `AfterRead`. |
| Utils.LocalStorage.SetDecryptCache | lib/utils.ts:82-98 | With a window, the items become `Written`: the entry is stored; if that exceeds the quota, the write is retried once after an expiry sweep; if that fails too, only the sweep remains. Without a window nothing changes. |
| Utils.LocalStorage.ClearExpiredDecryptCache | lib/utils.ts:100-124 | The loop over the keys leaves exactly `Sweep` of the old items. |
| Utils.LocalStorage.ClearAllDecryptCache | lib/utils.ts:126-138 | The loop over the keys leaves exactly `SweepAll` of the old items. |
| Utils.ReadAfterWrite | lib/utils.ts:45-93 | A value stored at `now`, by the first `setItem` or by the retry after the sweep, is read back at any time up to and including 24 hours later. |
| Utils.ReadAfterExpiry | lib/utils.ts:45-74 | Once more than 24 hours have passed since the write, the key misses. |
| Utils.WriteKeepsForeignKeys | lib/utils.ts:82-124 | A write, including its fallback sweep, never adds, removes or changes an unprefixed key other than the one written. |
| Strings.SortSorts | lib/utils.ts:57 | The sorted list is a permutation of the input, in ascending character order (Unicode scalar values; the code compares UTF-16 code units, which order the same below U+10000). |
| Strings.SortedUnique | lib/utils.ts:57 | Two sorted permutations of the same multiset are equal. |
| Strings.SortPermutationInvariant | lib/utils.ts:57 | Sorting gives the same list for any reordering of its input. |
| Strings.SortedKeys | hooks/useFHEOperations.ts:178 | The listing holds each key of the set exactly once. |
| Encoding.HexDigit | hooks/useFHEOperations.ts:58 | Each value 0-15 becomes a lowercase hex digit that decodes back to it. |
| Encoding.PadStart | hooks/useFHEOperations.ts:58 | `padStart` pads to the width and keeps the original text as the suffix. |
| Encoding.ByteHex | hooks/useFHEOperations.ts:58 | A byte becomes exactly two hex digits, high nibble first. |
| Encoding.PaddedIsByteHex | hooks/useFHEOperations.ts:58 | `toString(16)` padded to two characters with `0` is the byte's two digits, for every byte, including those below 16. |
| Encoding.ByteHexValue | hooks/useFHEOperations.ts:58 | The two digits of a byte read back, high digit times 16 plus low digit, give the byte. |
| Encoding.Pieces | hooks/useFHEOperations.ts:58 | The mapped pieces are one two-digit string per byte, in order. |
| Encoding.HexBody | hooks/useFHEOperations.ts:57-61 | The body has two characters per byte. |
| Encoding.JoinedIsBody | hooks/useFHEOperations.ts:58-61 | Mapping the bytes to two-digit strings and joining them with "" gives `HexBody`. |
| Encoding.EncodeHex | hooks/useFHEOperations.ts:57-61 | The encoding starts with `0x` and has length 2 + 2n. |
| Encoding.DecodeBody | hooks/useFHEOperations.ts:57-61 | A successful decode yields one byte per two characters. |
| Encoding.BodyRoundTrip | hooks/useFHEOperations.ts:57-61 | Decoding a hex body gives back the bytes. |
| Encoding.DecodeStep | hooks/useFHEOperations.ts:57-61 | Decoding one byte's digits followed by a rest succeeds exactly when decoding the rest does, and puts that byte in front. |
| Encoding.HexRoundTrip | hooks/useFHEOperations.ts:57-61 | Decoding `"0x" + hex` gives back the bytes, so distinct handles get distinct encodings. |
| Encoding.Word | hooks/useFHEOperations.ts:245 | An ABI word is 64 hex digits: 62 zeros, then the byte's two digits. |
| Encoding.WordRoundTrip | hooks/useFHEOperations.ts:245 | Reading a word back gives the byte it encodes. |
| Encoding.Pair | hooks/useFHEOperations.ts:245 | The encoding of two values is `0x`, then the first value's word, then the second's: 130 characters. |
| Encoding.AbiEncodeUint8Pair | hooks/useFHEOperations.ts:245 | The encoding succeeds exactly for two values that are integers in 0-255 and is then `0x` plus 128 hex digits. Any other number of values is the length error. A NaN first value is the "underflow" error. |
| Encoding.AbiRoundTrip | hooks/useFHEOperations.ts:245 | Two bytes always encode, and the encoding decodes back to the same pair. |
| FheOperations.ObjectKeys | hooks/useFHEOperations.ts:178 | `Object.keys` lists exactly the keys of the object. |
| FheOperations.Relayer.constructor | hooks/useFHEOperations.ts:42 | The relayer holds the given reply functions, and its request log starts empty. |
| FheOperations.Relayer.Encrypt | hooks/useFHEOperations.ts:42-54 | The request is logged and the reply is the fixed encryption outcome. |
| FheOperations.Relayer.PublicDecrypt | hooks/useFHEOperations.ts:89 | The request is logged and the reply is the fixed public-decryption outcome. |
| FheOperations.Relayer.UserDecrypt | hooks/useFHEOperations.ts:390-433 | The request is logged and the reply is the fixed user-decryption outcome. |
| FheOperations.AddWidth | hooks/useFHEOperations.ts:45-51 | `add8` is used when present, else `add16`, else none: each way both directions. |
| FheOperations.FromCiphertexts | hooks/useFHEOperations.ts:54-63 | The result is `Ok` exactly when encryption succeeded with at least one handle. A missing first handle is a TypeError. Both handle and proof are `0x`+hex that decodes to the original bytes, with length 2 + 2n. |
| FheOperations.ReadValue | hooks/useFHEOperations.ts:196-203 | One handle's value is read leniently (undefined or null miss) or strictly (only undefined misses; a null or undefined container throws). A hit is `Js.ToNumber` of the value: NaN for undefined, functions and objects, 0 for null, a parsed string, or the number itself. A miss is the "No decrypted value" error for that handle. |
| FheOperations.ClearValues | hooks/useFHEOperations.ts:196-203 | The map exists exactly when every handle reads. Its keys are then exactly the handles, each with its value. |
| FheOperations.ClearValuesStep | hooks/useFHEOperations.ts:196-203 | Reading one more handle successfully adds its value to the map of the handles read so far. |
| FheOperations.PrefixReadsAnswered | hooks/useFHEOperations.ts:196-203 | When every handle before a failing one was read, the whole read fails first at that handle. |
| FheOperations.ValuesInOrder | hooks/useFHEOperations.ts:245 | The values are listed in handle order, one per handle. |
| FheOperations.ClearValuesFailsAt | hooks/useFHEOperations.ts:196-203 | A failed collection reports the error of the first handle that does not read. |
| FheOperations.CollectClearValues | hooks/useFHEOperations.ts:195-203 | The loop that fills `clearValues` computes `ClearValues`. |
| FheOperations.ValidateHandles | hooks/useFHEOperations.ts:145-149 | The check passes exactly when every handle starts with `0x`. |
| FheOperations.ShapeOf | hooks/useFHEOperations.ts:178-300 | The shapes are tried in order: the three-key envelope, then `values` with `proof`, then a map holding at least one requested handle, else unrecognised. Each is stated as an iff. |
| FheOperations.ProofOrEmpty | hooks/useFHEOperations.ts:111-113 | A falsy proof becomes `0x`, and a truthy one is kept. |
| FheOperations.AbiEncoded | hooks/useFHEOperations.ts:244-245 | The values, in handle order, encode exactly when there are two, each an integer `uint8` (never NaN). They then decode back to those values. |
| FheOperations.Normalized | hooks/useFHEOperations.ts:176-300 | A non-object reply is a TypeError, and an unrecognised one is the "Unsupported publicDecrypt result format" error. A success carries exactly the requested handles with the values read from the shape's container. The envelope's encoding and proof are passed through. A missing proof becomes `0x`. A reply without an encoding gets the ABI encoding of the two values, which exists only when both are integer `uint8`s and decodes back to them. |
| FheOperations.MissingValueRejected | hooks/useFHEOperations.ts:196-203 | In any recognised shape, a requested handle without a value makes the whole normalisation fail. |
| FheOperations.EnvelopeFirst | hooks/useFHEOperations.ts:179-216 | A reply carrying the three envelope keys is read as the envelope, even if it also has `values` and `proof`. |
| FheOperations.NormalizeReply | hooks/useFHEOperations.ts:176-300 | The loop-based normaliser computes `Normalized`. |
| FheOperations.NormalizedSingle | hooks/useFHEOperations.ts:91-118 | A `{values, proof}` reply yields its value for the handle and the proof (or `0x`). Any other object reply is read as a map keyed by the handle, with proof `0x`. A missing value is the "No decrypted value found" error. A non-object reply is a TypeError. |
| FheOperations.UserDecrypted | hooks/useFHEOperations.ts:435-447 | The map exists exactly when the reply succeeded and holds every handle. Its keys are then exactly the requested handles. |
| FheOperations.HitLeavesStorage | hooks/useFHEOperations.ts:80-86 | A cache lookup that hits leaves the storage as it was. |
| FheOperations.StoredSingleHits | hooks/useFHEOperations.ts:81-121 | A stored single result is found again under the same key for 24 hours. |
| FheOperations.StoredMultipleHits | hooks/useFHEOperations.ts:152-212 | A stored batch result is found again for 24 hours, under the key of any reordering of its handles. |
| FheOperations.FheClient.constructor | hooks/useFHEOperations.ts:26-30 | The client holds the relayer instance (or null), the account and the storage. |
| FheOperations.FheClient.EncryptOutcome | hooks/useFHEOperations.ts:33-65 | Without an instance or account the result is the "not initialized" error. With no add method it is that error. Otherwise it is the hex encoding of the relayer's reply for the chosen width. |
| FheOperations.FheClient.Encrypt | hooks/useFHEOperations.ts:33-65 | The result is `EncryptOutcome`. The relayer is asked to encrypt only when the client is ready and the buffer has an add method. |
| FheOperations.FheClient.PublicDecrypt | hooks/useFHEOperations.ts:68-126 | With no instance, it errors and the storage is unchanged. A handle without `0x` is refused before the cache or the relayer is touched. A hit is returned without a relayer call and leaves the storage unchanged. A miss asks the relayer once for `[handle]`, normalises the reply, and caches only a success. |
| FheOperations.FheClient.PublicDecryptMultiple | hooks/useFHEOperations.ts:130-302 | As `PublicDecrypt`, for a batch: every handle is validated first, the cache key is order-free, the relayer is asked once for the batch on a miss, and only a normalised success is cached. |
| FheOperations.FheClient.UserDecryptMultiple | hooks/useFHEOperations.ts:366-449 | Precedence: not ready, then an empty list, then a handle without `0x`. None of these calls the relayer. Otherwise one user decryption is requested and its reply extracted by `UserDecrypted`. |
| Js.StrictGet | hooks/useFHEOperations.ts:230 | Reading a property throws exactly on `undefined` or `null`, and otherwise yields the property. |
| Ledger.Fresh | smart-contracts/test/ZDAO.test.ts:72-80 | A new proposal is private, with zero published counts and no ballots. |
| Ledger.Lookup | smart-contracts/test/ZDAO.test.ts:122-134 | Every id past the last proposal reverts with "Invalid proposal"; every other id yields its proposal. |
| Ledger.MadePublic | smart-contracts/test/ZDAO.test.ts:99-119 | A reveal succeeds exactly for an existing private proposal, makes it public and changes no other proposal. A public one reverts with "Vote counts already public". |
| Ledger.MadePublicOnce | smart-contracts/test/ZDAO.test.ts:112-119 | Revealing the same proposal twice reverts the second time. |
| Ledger.Voted | hooks/useVoting.ts:87-97 | A ballot is accepted exactly for an existing private proposal the voter has not voted on. It records the voter's handle and changes no other proposal. |
| Ledger.VotedOnce | hooks/useVoting.ts:87-89 | A second ballot by the same voter reverts with "Already voted". |
| Ledger.Submitted | smart-contracts/test/ZDAO.test.ts:99-110 | An accepted submission needs an existing proposal and a well-formed `(uint8, uint8)` encoding. It stores the two decoded counts as the published ones and changes no other proposal. |
| Ledger.SubmittedPublishes | smart-contracts/test/ZDAO.test.ts:99-110 | Submitting the encoding of (yes, no) with an accepted proof publishes exactly yes and no. |
| Ledger.Zdao.constructor | smart-contracts/test/ZDAO.test.ts:12-18 | The stub holds the given proposals and faults, and its call log starts empty. |
| Ledger.Zdao.ReadProposalCount | hooks/useProposals.ts:31-32 | The call is logged, and the result is the number of proposals unless the call faults. |
| Ledger.Zdao.ReadProposal | hooks/useProposals.ts:41 | The call is logged, and the result is the fault, the "Invalid proposal" revert, or the proposal. |
| Ledger.Zdao.ReadPublicVoteCounts | hooks/useVoting.ts:276 | The call is logged, and the result is the proposal's published counts and visibility. |
| Ledger.Zdao.ReadEncryptedVoteCount | hooks/useVoting.ts:327 | The call is logged, and the result is the proposal's two encrypted handles. |
| Ledger.Zdao.ReadHasUserVoted | hooks/useVoting.ts:224 | The call is logged, and the result says whether the voter holds a ballot. |
| Ledger.Zdao.ReadMyVote | hooks/useVoting.ts:242 | The call is logged, and the result is the caller's ballot handle. |
| Ledger.Zdao.EstimateIn | hooks/useVoting.ts:136 | The gas estimate succeeds exactly when it does not fault and the reveal would succeed. Otherwise it fails with the reveal's revert. |
| Ledger.Zdao.EstimateMakeVoteCountsPublic | hooks/useVoting.ts:136 | The call is logged and its result is `EstimateOf`. Nothing changes. |
| Ledger.Zdao.SendMakeVoteCountsPublic | hooks/useVoting.ts:156-158 | The transaction is logged. It succeeds exactly when the reveal does, and only then do the proposals change. |
| Ledger.Zdao.SendSubmitDecryptedVoteCounts | hooks/useVoting.ts:350-355 | The transaction is logged. It succeeds exactly when the submission is accepted, and only then do the proposals change. |
| Ledger.Zdao.SendVote | hooks/useVoting.ts:80-81 | The transaction is logged. It succeeds exactly when the ballot is accepted, and only then do the proposals change. |
| Voting.OrUnknown | hooks/useVoting.ts:153 | `message \|\| 'Unknown error'` is never empty and keeps a non-empty message. |
| Voting.VoteErrorMessage | hooks/useVoting.ts:87-100 | The substrings are tested in order: "Already voted", "Invalid proposal", "Voting is closed". Anything else becomes "Voting failed: " + `handleFHEError`. |
| Voting.AlreadyVotedTranslated | hooks/useVoting.ts:87-89 | The contract's "Already voted" revert becomes the once-only text. |
| Voting.InvalidProposalTranslated | hooks/useVoting.ts:91-93 | The contract's "Invalid proposal" revert becomes the refresh text. |
| Voting.VotingClosedTranslated | hooks/useVoting.ts:95-97 | The "Voting is closed" revert is translated to the closed text. |
| Voting.ClosedTextKept | hooks/useVoting.ts:95-97 | The closed text thrown inside `vote` survives the translation unchanged. |
| Voting.GasFailure | hooks/useVoting.ts:138-154 | With error data, `0xd0d25976` is tested before `0x4e487b71`. Without a match the error becomes "Gas estimation failed: " + the message. |
| Voting.RevealFailure | hooks/useVoting.ts:194-209 | The outer mapping tests "Vote counts already public", then "Invalid proposal", then "Custom error:" (rethrown as is). Anything else becomes "Failed to make vote counts public: …". |
| Voting.CustomInvalidIdBecomesGeneric | hooks/useVoting.ts:148-203 | Because "Invalid proposal" is tested before "Custom error:", the custom invalid-id error reaches the caller as the generic invalid-proposal text. |
| Voting.SecondRevealRefused | hooks/useVoting.ts:136-199 | A reveal whose estimate reverts "Vote counts already public" gets the already-public text. |
| Voting.MyVoteFailure | hooks/useVoting.ts:245-264 | With error data, the codes `0x4e487b71`, `0x4e487b72`, `0xd0d25976` are tested in that order. Anything else becomes "Failed to get my vote: " + the message. |
| Voting.SubmittedOnce | hooks/useVoting.ts:321-346 | Once an accepted submission has published a non-zero tally on a public proposal, no later decryption submits again. |
| Voting.NumericVote | hooks/useVoting.ts:66-70 | Yes is 0 and no is 1. Both are valid, so the range check never rejects, and the labels agree. |
| Voting.Balloted | hooks/useVoting.ts:58-84 | The ballot always starts with the public-counts read. A failure changes no proposal. |
| Voting.Sending | hooks/useVoting.ts:80-81 | Sending sends exactly the vote transaction with the encrypted value and proof. A failure changes no proposal. |
| Voting.SendBallot | hooks/useVoting.ts:80-81 | The method performs `Sending` on the stub. |
| Voting.BallotRecorded | hooks/useVoting.ts:58-84 | A successful ballot was for an existing private proposal the voter had not voted on. It records the voter's handle and changes no other proposal. |
| Voting.BallotClosed | hooks/useVoting.ts:61-97 | On a public proposal the ballot stops after the counts read with the closed text, sends no vote, requests no encryption, and changes nothing. |
| Voting.SecondBallotRefused | hooks/useVoting.ts:80-89 | A second ballot by the same voter reaches the contract, is refused with "Already voted", changes nothing, and is translated to the once-only text. |
| Voting.CastBallot | hooks/useVoting.ts:58-84 | The result, calls and records are those of `Balloted`. The relayer receives exactly the requests of `BallotRequests`, and the cache storage is unchanged. |
| Voting.BallotRequests | hooks/useVoting.ts:58-79 | At most one request, the encryption of the ballot. It is made only after the read answered with a private proposal and with the client ready. |
| Voting.BallotEncryptedOnce | hooks/useVoting.ts:66-84 | A ballot that goes through was encrypted exactly once. |
| Voting.Translated | hooks/useVoting.ts:84-100 | A ballot's failure is replaced by a fresh error carrying `VoteErrorMessage`. A success is "sent". |
| Voting.Vote | hooks/useVoting.ts:34-104 | Precedence: wallet, then FHE, then network. The first two throw, and the wrong network only alerts. None of the three changes the store (its state, listeners and notifications), the ledger or the FHE client. Otherwise the ballot is cast with `isLoading` raised then lowered, the listeners notified twice, and its outcome translated. The relayer receives exactly the requests of `BallotRequests`. |
| Voting.Wrapped | hooks/useVoting.ts:417-423 | Every decryption failure becomes "Failed to decrypt vote counts: " + the message or "Unknown error". |
| Voting.Submission | hooks/useVoting.ts:333-391 | The decrypted counts are always returned. A submission is sent exactly when their sum is a positive number (never when either is NaN) and the tally was not already published. Visibility never changes, even when the submission fails. |
| Voting.SubmissionPublishes | hooks/useVoting.ts:346-361 | A due submission whose encoding decodes to the counts (`Encodes`) and whose proof is accepted publishes exactly those counts, and is followed by the verifying read. |
| Voting.NormalizedEncodesCounts | hooks/useVoting.ts:334-352 | When the front end encodes the counts itself, the encoding it submits decodes to the counts it returns, both integers. |
| Voting.SubmissionNotRepeated | hooks/useVoting.ts:321-346 | After a submission that published a non-zero tally, no later decryption is due to submit. |
| Voting.SubmitIfDue | hooks/useVoting.ts:346-391 | The method performs `Submission` on the stub. |
| Voting.DecryptBatch | hooks/useVoting.ts:333-391 | A failed batch decryption is wrapped and sends nothing. Otherwise the result follows `Submission`. |
| Voting.DecryptEach | hooks/useVoting.ts:392-413 | The single-value fallback decrypts yes, then no, and returns them. The first failure is wrapped. |
| Voting.DecryptTally | hooks/useVoting.ts:333-416 | With the batch function the result follows `DecryptBatch`. Otherwise nothing is sent, and the result follows `DecryptEach` or the "not available" error. Visibility never changes. |
| Voting.DecryptFrom | hooks/useVoting.ts:318-423 | A failed counts or handles read is wrapped. Otherwise the result follows `DecryptTally` on the handles read. |
| Voting.DecryptVoteCounts | hooks/useVoting.ts:302-424 | A missing contract or uninitialised FHE is refused first. Otherwise the result, calls and records are those of `Decryption` for the route `Answered` gives, through `publicDecryptMultiple` when defined, else `publicDecrypt` per handle, else the unavailable error. Visibility never changes and the call log only grows. |
| Js.ToNumber | hooks/useFHEOperations.ts:202 | Numbers and booleans convert to their value, null to 0, and undefined, functions and objects to NaN. Strings are parsed by `StringToNumber`, whose behaviour `DigitsRead` and `DecimalRoundTrip` state. |
| Js.TrimStart | hooks/useFHEOperations.ts:202 | The result is a suffix of the input, everything cut is JS white space, and the result does not start with white space. |
| Js.TrimEnd | hooks/useFHEOperations.ts:202 | The result is a prefix of the input, everything cut is JS white space, and the result does not end with white space. |
| Js.Digits | hooks/useFHEOperations.ts:202 | A run of digits reads as a non-negative integer. |
| Js.DigitsRead | hooks/useFHEOperations.ts:202 | A run reads as a number exactly when it is non-empty and every character is a digit in the radix. Otherwise it is NaN. |
| Js.DigitsOfDecimal | hooks/useFHEOperations.ts:202 | Reading the decimal digits of a natural number gives that number back. |
| Js.DecimalRoundTrip | hooks/useFHEOperations.ts:202 | `Number` of the decimal text of any integer is that integer. |
| Voting.NaNNotSubmitted | hooks/useVoting.ts:336-346 | A decrypted tally with a NaN count is never due for submission. |
| Voting.Answered | hooks/useVoting.ts:331-402 | The batch route is taken exactly when `publicDecryptMultiple` is defined, the per-handle route exactly when only `publicDecrypt` is, and with neither the cache is unchanged. |
| Voting.Tally | hooks/useVoting.ts:331-402 | Visibility never changes. Only the batch route calls the contract. A failure sends nothing, changes nothing and carries the decryption prefix. |
| Voting.Fetched | hooks/useVoting.ts:320-327 | The reads answer exactly when both contract reads do, with their values. The encrypted tally is read only after the public counts answered. |
| Voting.ReadTallyHandles | hooks/useVoting.ts:320-327 | The two reads answer as `Fetched` says and log exactly its calls. |
| Voting.Decryption | hooks/useVoting.ts:318-420 | Visibility never changes. A failure sends only the reads, changes nothing and carries the decryption prefix. |
| Voting.SubmitsAfterReads | hooks/useVoting.ts:320-350 | Reads in front of the calls do not change whether a submission is among them. |
| Voting.TallySubmitsWhenDue | hooks/useVoting.ts:331-350 | A tally is submitted exactly when the batch route answered and the decrypted tally is due. |
| Voting.DecryptionSubmitsWhenDue | hooks/useVoting.ts:318-350 | A decryption submits exactly when the batch route answered, the reads and the batch succeeded and the tally is due. |
| Voting.RevealSent | hooks/useVoting.ts:119-164 | The result is `RevealResult`. The calls are the pre-check and the estimate, then the transaction only after a good estimate. A failure changes nothing. A success made a private proposal public. |
| Voting.Revelation | hooks/useVoting.ts:119-176 | The result is that of the reveal. With FHE ready and a reveal that went through, the decryption's calls follow the reveal's and its changes are kept. Otherwise it is the reveal alone. |
| Voting.RevealingComposes | hooks/useVoting.ts:119-176 | The reveal followed by the decryption on the records it left make up `makeVoteCountsPublic`, and a reveal that went through left the records `Revealed` says. |
| Voting.RevealStaysPublic | hooks/useVoting.ts:119-199 | After `makeVoteCountsPublic` went through the proposal is public, whatever the decryption did, and a second reveal fails with the already-public text. |
| Voting.RevealThenSubmits | hooks/useVoting.ts:164-176 | With FHE ready and the batch route, revealing a proposal with no published tally and a positive decrypted sum submits the tally after the reveal's own calls. |
| Voting.RevealResult | hooks/useVoting.ts:135-213 | The reveal succeeds exactly when the estimate and the transaction do. The estimate's failure goes through `GasFailure` then `RevealFailure`, the transaction's through `RevealFailure`. |
| Voting.RevealRefusedWhenPublic | hooks/useVoting.ts:136-199 | Revealing a public proposal fails with the already-public text. |
| Voting.RevealRefusedWhenMissing | hooks/useVoting.ts:136-203 | Revealing a missing proposal fails with the invalid-proposal text. |
| Voting.SendReveal | hooks/useVoting.ts:124-160 | The result is `RevealResult`. The log holds the pre-check reads and the estimate, then the transaction only if the estimate passed. A failure changes no proposal. A success finds the proposal private and makes exactly it public. |
| Voting.PreCheck | hooks/useVoting.ts:124-133 | The swallowed pre-check reads the proposal, and the counts only when that read succeeded. |
| Voting.Reveal | hooks/useVoting.ts:119-193 | The result is `RevealResult`. The calls are the pre-check, the estimate, and the transaction only after a good estimate. A failure changes no proposal. A success made a private proposal public and, with FHE ready, is followed by `decryptVoteCounts` on the revealed records, whose calls (including any submission of the tally) and changes are those `Revelation` says. A decryption failure afterwards does not fail the call. |
| Voting.MakeVoteCountsPublic | hooks/useVoting.ts:106-213 | A disconnected wallet is refused with the store, the ledger and the FHE clients unchanged. Otherwise the result is `RevealResult`, with `isLoading` raised then lowered, and the calls and records are those of `Revelation`, the follow-up decryption and submission included. A success leaves the proposal public. |
| Voting.HasUserVoted | hooks/useVoting.ts:215-231 | Disconnected means false, with the ledger unchanged. Otherwise the read is logged, no proposal changes, and it is true exactly when the contract reports a ballot; a failed read is false. |
| Voting.GetMyVote | hooks/useVoting.ts:233-266 | Disconnected is refused, with the ledger unchanged. Otherwise the read is logged, no proposal changes, and the handle is returned or the failure mapped by `MyVoteFailure`. |
| Voting.GetPublicVoteCounts | hooks/useVoting.ts:268-286 | No contract is refused. Otherwise the read is logged, no proposal changes, and it returns the published counts, or 0/0/private when the read fails. |
| Proposals.Handles | hooks/useProposals.ts:136-142 | The encrypted handles are attached exactly when their read succeeded. |
| Proposals.Entry | hooks/useProposals.ts:40-166 | A proposal is listed exactly when its description and counts read. Its id, description, visibility and date are those read, and `totalVotes` is yes + no, NaN when either count is NaN. |
| Proposals.PublishedCountsWin | hooks/useProposals.ts:57-75 | A public proposal with a non-zero published total shows the published counts, whatever the verifying decryption gives. |
| Proposals.FailedDecryptionShowsNothing | hooks/useProposals.ts:116-131 | A failed decryption of a zero-total public proposal shows 0/0 and attaches the handles when they read. |
| Proposals.DecryptionShown | hooks/useProposals.ts:76-115 | A decrypted zero-total public proposal shows the re-read counts when the decrypted and re-read totals are both positive, else the decrypted counts, with no handles. |
| Proposals.UndecryptedCarriesHandles | hooks/useProposals.ts:134-143 | A proposal that is not decrypted (private, FHE off, or no decrypt function) keeps the contract counts and carries the handles when they read. |
| Proposals.Loaded | hooks/useProposals.ts:39-167 | The loop emits at most one entry per id. |
| Proposals.LoadedEntries | hooks/useProposals.ts:39-167 | Each emitted proposal is the `Entry` of an id below the count. |
| Proposals.LoadedAscending | hooks/useProposals.ts:39-167 | The loop emits ids in strictly ascending order. |
| Proposals.Answered | hooks/useProposals.ts:39-166 | An id is answered exactly when it is below the count and both its description and its public counts could be read. |
| Proposals.LoadedIds | hooks/useProposals.ts:39-166 | The emitted ids are exactly those below the count whose reads succeed; a failing proposal is omitted. |
| Proposals.Reversed | hooks/useProposals.ts:182 | The reversal has the same length, with element k taken from position n-1-k. |
| Proposals.NewestFirst | hooks/useProposals.ts:182-184 | The stored list has strictly descending ids. |
| Proposals.Reverse | hooks/useProposals.ts:182 | The in-place reversal leaves the array holding `Reversed` of its old contents. |
| Proposals.LoadOne | hooks/useProposals.ts:40-166 | One iteration of the loop yields `Entry` for its id. |
| Proposals.Listed | hooks/useProposals.ts:32-182 | The loop up to `Number(count)`, with a negative count reading as none, yields the reversal of `Loaded`. |
| Proposals.LoadProposals | hooks/useProposals.ts:21-190 | No contract means nothing changes. A failed count only raises and lowers `isLoading`. Otherwise the store's proposals become the reversed loaded list. `isLoading` is false afterwards, every other field is unchanged, and listeners are notified per setter. |
| Page.Keep | app/page.tsx:149-189 | `filter` keeps exactly the elements satisfying the predicate and is no longer than its input. |
| Page.KeepAppend | app/page.tsx:149 | Filtering distributes over appending one element. |
| Page.KeepTwice | app/page.tsx:149 | Filtering twice by the same predicate is filtering once. |
| Page.KeepDistinct | app/page.tsx:183-189 | Filtering keeps distinct keys distinct. |
| Page.ConcatDistinct | app/page.tsx:157 | Appending two lists with distinct, disjoint keys gives distinct keys. |
| Page.KeysOfConcat | app/page.tsx:157 | The keys of an append are the union of the keys. |
| Page.Marked | app/page.tsx:192-199 | Each id becomes a vote with the given choice and date. The voted ids are exactly the ids, and distinct ids give distinct votes. |
| Page.ProposalIds | app/page.tsx:135 | The ids of the proposals, in order. |
| Page.Existing | app/page.tsx:149 | The kept votes are exactly the earlier votes whose proposal was found voted. |
| Page.Fresh | app/page.tsx:151-155 | The ids to decrypt are exactly the voted ids with no earlier vote that are not in flight. |
| Page.Fetched | app/page.tsx:170-180 | Each id is paired with its `getMyVote` outcome, in order. |
| Page.Valid | app/page.tsx:183-185 | The valid pairs are exactly the successful fetches, with distinct ids kept distinct. |
| Page.Handles | app/page.tsx:203 | The handles of the valid fetches, in order. |
| Page.ChoiceOf | app/page.tsx:213-229 | A missing value is "error". A decrypted 0 is "yes". Any other value, NaN included, is "no". Each is an iff. |
| Page.Decoded | app/page.tsx:212-231 | Each valid fetch becomes a vote with `ChoiceOf` its handle. The voted ids are exactly the fetched ids, distinct when those are. |
| Page.Remaining | app/page.tsx:246-248 | The remaining ids are exactly the new ids without a vote yet. |
| Page.SelfKeys | app/page.tsx:151-164 | The key set of a list of ids is its element set. |
| Page.FetchesCover | app/page.tsx:183-189 | Failed and valid fetches together cover exactly the new ids. |
| Page.FetchesApart | app/page.tsx:183-189 | No id is both a failed and a valid fetch. |
| Page.FreshIn | app/page.tsx:151-155 | The ids to decrypt have no earlier vote, are not in flight, and were all found voted. |
| Page.ExistingIn | app/page.tsx:149 | The kept votes are earlier votes on voted proposals. |
| Page.RemainingAreValid | app/page.tsx:246-248 | After the error votes are pushed, the remaining ids are exactly the valid fetches. |
| Page.ResolvedCovers | app/page.tsx:166-259 | After decryption, success or failure, every new id has a vote and no other id gained one. |
| Page.StatusCovers | app/page.tsx:133-282 | The new list holds a vote for exactly the listed proposals reported voted that either had a vote or were not in flight. |
| Page.StatusParts | app/page.tsx:133-282 | The ids a check lists are the kept entries' ids plus the new ids. |
| Page.ResolvedDistinct | app/page.tsx:166-259 | Decryption gives at most one vote per id. |
| Page.StatusDistinct | app/page.tsx:149-282 | With distinct proposals and earlier votes, the new list has at most one vote per proposal. |
| Page.ExistingKept | app/page.tsx:149-157 | An earlier vote on a proposal still reported voted is kept as it was. |
| Page.UndecryptedUnknown | app/page.tsx:260-270 | With FHE uninitialised or no batch decryption, every new id becomes "unknown". |
| Page.FailedFetchIsError | app/page.tsx:170-199 | A failed `getMyVote` makes that id "error". |
| Page.PendingResolved | app/page.tsx:149-170 | A proposal that is voted, has no vote yet and is not in flight is one of the new ids, and with FHE ready the check takes the batch branch over them. |
| Page.FailedFetchMarked | app/page.tsx:170-199 | A new id whose `getMyVote` failed is marked "error". |
| Page.FetchedIsValid | app/page.tsx:170-199 | A new id whose `getMyVote` succeeded is kept with its handle. |
| Page.ResolvedDecoded | app/page.tsx:207-229 | After a successful batch, a new id that fetched is listed with its decrypted choice. |
| Page.ResolvedBatchFailed | app/page.tsx:232-259 | After a failed batch, a new id that fetched is listed as "error". |
| Page.DecryptedChoice | app/page.tsx:207-229 | A successful batch gives each fetched id "yes" for 0 and "no" otherwise. |
| Page.FailedBatchIsError | app/page.tsx:232-259 | A failed batch makes every new id without a vote "error". |
| Page.VoteStatus.constructor | app/page.tsx:54-55 | Not checking, nothing in flight, no votes. |
| Page.VoteStatus.CollectVoted | app/page.tsx:134-144 | The loop over the proposals collects exactly the voted ids, in order. |
| Page.VoteStatus.Mark | app/page.tsx:164 | The new ids are added to the in-flight set. |
| Page.VoteStatus.Settle | app/page.tsx:192-270 | The loop pushes one vote per item and removes each item's id from the in-flight set. |
| Page.VoteStatus.DecodeAll | app/page.tsx:212-231 | The loop pushes each decoded vote and removes each id from the in-flight set. |
| Page.VoteStatus.Decrypt | app/page.tsx:166-259 | The fetch, error, batch and failure steps yield `Resolved`, and every new id leaves the in-flight set. |
| Page.VoteStatus.CheckVotingStatus | app/page.tsx:123-283 | A check already in progress changes nothing. Otherwise the guard is released, the in-flight set is as before, and the votes are replaced by `VotingStatus`. |
| Page.Replaced | app/page.tsx:328 | The new vote is last, the rest are exactly the other proposals' votes, it is the only vote for its proposal, and distinct votes stay distinct. |
| Page.ReplacedIdempotent | app/page.tsx:328 | Recording the same vote twice is recording it once. |
| Page.HandleVoteAsWritten | app/page.tsx:309-348 | As written, every normal return of `vote` records the vote, toasts and refreshes. An error toasts its message and records nothing. |
| Page.AlertRecordedAsWritten | app/page.tsx:317-337 | As written, a wrong-network alert is recorded as a vote, toasted "Vote Submitted" and refreshed. |
| Page.HandleVote | app/page.tsx:309-348 | The vote is recorded, toasted and refreshed exactly when it was sent. An error toasts its message. An alert does nothing more. |
| Page.VoteRecordedOnce | app/page.tsx:323-328 | After a sent vote, its proposal has exactly the new vote, other votes are kept, and votes stay distinct. |
| Page.SliceBound | app/page.tsx:406 | `slice` clamps an index to [0, n], counting negative indices from the end. |
| Page.JsSlice | app/page.tsx:406 | `slice(start, end)` is the clamped range, or empty when it is inverted. |
| Page.TotalPages | app/page.tsx:407 | The page count is the ceiling of n / 3. |
| Page.PageWithin | app/page.tsx:404-406 | Page p, for 1 ≤ p ≤ the page count, is proposals[(p−1)·3 .. min(p·3, n)] and holds 1 to 3 proposals. |
| Page.PageOutside | app/page.tsx:404-406 | Page 0 and every page past the count are empty. |
| Page.PagesPrefix | app/page.tsx:404-406 | The first k pages together are the first min(3k, n) proposals. |
| Page.PagesPartition | app/page.tsx:404-407 | All pages together are exactly the proposal list, in order. |
| Web3State.Store.constructor | hooks/web3State.ts:19-29 | Account and chain are null, every flag is false, there are no proposals and no listeners. |
| Web3State.Store.GetState | hooks/web3State.ts:94-103 | `getState` agrees with each individual getter. |
| Web3State.Store.NotifyListeners | hooks/web3State.ts:31-33 | Every subscribed listener is notified once. |
| Web3State.Store.SetAccount | hooks/web3State.ts:36-39 | Only the account changes, and the listeners are notified. |
| Web3State.Store.SetIsConnected | hooks/web3State.ts:41-44 | Only the connected flag changes, and the listeners are notified. |
| Web3State.Store.SetIsConnecting | hooks/web3State.ts:46-49 | Only the connecting flag changes, and the listeners are notified. |
| Web3State.Store.SetChainId | hooks/web3State.ts:51-54 | Only the chain id changes, and the listeners are notified. |
| Web3State.Store.SetContract | hooks/web3State.ts:56-59 | Only the contract changes, and the listeners are notified. |
| Web3State.Store.SetProposals | hooks/web3State.ts:61-64 | Only the proposals change, and the listeners are notified. |
| Web3State.Store.SetIsLoading | hooks/web3State.ts:66-69 | Only the loading flag changes, and the listeners are notified. |
| Web3State.Store.SetHasAttemptedAutoConnect | hooks/web3State.ts:71-73 | Only the auto-connect flag changes. Nobody is notified. |
| Web3State.Store.Subscribe | hooks/web3State.ts:86-87 | The listener joins the set. |
| Web3State.Store.Unsubscribe | hooks/web3State.ts:88-90 | The listener leaves the set. |
| Web3State.UnsubscribedNotNotified | hooks/web3State.ts:86-91 | After a listener unsubscribes, the next setter notifies the others but not it. |
| RelayerInstance.TypeOf | hooks/useZamaRelayerInstance.ts:22-61 | `typeof` is "object" exactly for objects and null, and "function" exactly for functions. |
| RelayerInstance.ConfigOf | hooks/useZamaRelayerInstance.ts:53 | The config is `SepoliaConfig` when truthy, else `ZamaEthereumConfig`. |
| RelayerInstance.Created | hooks/useZamaRelayerInstance.ts:53-77 | The config checks in order: missing, not an object (naming its type), then lacking `verifyingContractAddressDecryption`. Only a usable config reaches `createInstance`, whose outcome is passed on. |
| RelayerInstance.Queried | hooks/useZamaRelayerInstance.ts:8-78 | No window gives null and touches nothing. A missing SDK fails before init. `initSDK` runs only while the flag is down. The flag rises exactly after a successful init, and a failed init is rethrown. `createInstance` runs only after init with a usable config. |
| RelayerInstance.InitOnce | hooks/useZamaRelayerInstance.ts:3-45 | After a successful `initSDK`, no later query calls it again. |
| RelayerInstance.FailedInitRetried | hooks/useZamaRelayerInstance.ts:39-44 | A failed `initSDK` leaves the flag down, so the next query calls it again. |
| RelayerInstance.UnusableSdkTouchesNothing | hooks/useZamaRelayerInstance.ts:16-30 | An SDK lacking either function fails with one of the three SDK errors. Neither `initSDK` nor `createInstance` runs, and the flag keeps its value. |
| RelayerInstance.RetryOnlyForMissingSdk | hooks/useZamaRelayerInstance.ts:83-93 | A retry is granted only when the query failed because the SDK is missing. |
| RelayerInstance.Retries | hooks/useZamaRelayerInstance.ts:83-93 | The retries granted in a row from failure count `from` number at most 10 − `from`. |
| RelayerInstance.AtMostTenRetries | hooks/useZamaRelayerInstance.ts:83-93 | While the SDK stays missing in a window, exactly 10 − `from` retries are granted. |
| RelayerInstance.Session.constructor | hooks/useZamaRelayerInstance.ts:3 | The flag starts down, and no init has been made. |
| RelayerInstance.Session.QueryFn | hooks/useZamaRelayerInstance.ts:8-78 | The query returns `Queried`'s result, sets the flag as `Queried` says, and counts one `initSDK` call exactly when `Queried` makes one. |

## Left out

- Cryptography, the relayer and the wallet. Key generation, EIP-712 signing, encrypted
  input buffers and the relayer's replies are fixed functions held by
  `FheOperations.Relayer`. The model does not say what they compute.
- The contract itself. Its source is not part of this model. `Ledger.Zdao` follows the
  reverts that its tests show. Every other failure is a `faults` entry, and acceptance of a
  decryption proof is a parameter.
- Ledger.Voted: the "Voting is closed" revert on a public proposal and the "Already voted"
  revert on a voter's second ballot are assumptions about the contract. The front end only
  matches these messages (hooks/useVoting.ts:87-97), and the contract's tests do not show
  either revert (smart-contracts/test/ZDAO.test.ts:57-63 checks only `hasUserVoted`).
- `Date.now()` and `new Date()`. These are the parameter `now`. Within one call every
  timestamp is the same `now`.
- `setTimeout` delays and every `console` call. They change no state the model tracks.
- Asynchrony. The `isCheckingVotesRef` guard, the in-flight set and `sdkInitialized` are
  sequential state. Interleaved calls are not modelled.
- JSON. Cache entries are stored as values. An unparseable entry is the `Unparseable` item
  rather than text, and the `JSON.parse`/`JSON.stringify` round trip is assumed exact.
- `Object.keys` order. A map keeps no insertion order, so keys are listed in ascending order
  (`Strings.SortedKeys`). The sweeps do not depend on the order.
- `Number(...)`. `Js.ToNumber` gives NaN for undefined, functions and objects, 0 for null,
  and parses strings (blank, decimal with a sign, `0x`/`0o`/`0b` prefixes). Fractions,
  exponents, `Infinity`, array operands and precision above 2^53 are not modelled: such a
  string reads as NaN, and a relayer reply holds integers or NaN only.
- The size of the storage quota. `Utils.Fits` counts keys, not bytes, so an entry's size
  does not matter.
- Other `setItem` exceptions. `Utils.Written` reads every exception of `setItem` as the quota
  being exceeded.
- The full text of the ABI encoder's errors. `Encoding.AbiEncodeUint8Pair` gives only the
  reason strings of ethers' coder. The prefix of its argument-count error and the details
  suffix it appends to every error are not modelled.
- A cache entry of the wrong kind (a single result under a batch key, or the reverse) is a
  miss. `Utils.KeySpacesDisjoint` shows the two key spaces never meet.
- `userDecrypt` (the single-handle user decryption, hooks/useFHEOperations.ts:305-363).
  Only `userDecryptMultiple` is used by the modelled code.
- `createProposal` and `isProposalOwner` (hooks/useVoting.ts:12-32, 288-300). They are
  not part of the modelled core.
- `refreshProposals` (hooks/useProposals.ts:192-198) only calls `loadProposals`. The
  reload that `vote`, `makeVoteCountsPublic` and `handleVote` trigger is left to the caller
  (`Page.Handled.refresh`).
- `Proposals.LoadProposals` reads the contract through the `Chain` record of functions
  rather than the `Zdao` stub. This is because the decryption callback can submit counts
  and change what the re-read sees. `chain.recheck` stands for that re-read.
- The outer `catch` of `checkVotingStatus` (app/page.tsx:274-277), which clears the
  in-flight set. Every fallible call inside is caught locally in the model (`getMyVote` per
  id, the batch decryption as a whole), so the branch cannot be reached.
- Page.VoteStatus.CheckVotingStatus: `hasUserVoted` is a total `nat -> bool`, because
  `Voting.HasUserVoted` never throws. The per-proposal `catch` (app/page.tsx:141-143) is
  therefore not reached.
- The page's other handlers and effects: `handleCreateProposal`, `handleMakePublic`,
  `handleRefreshResults`, `checkProposalOwnership`, the reset to page 1 and the clearing of
  votes on disconnect. They are not part of the modelled core.
- Page.HandleVote: `votingStates` is modelled only by its final value (""). The
  intermediate labels are overwritten before any await that the model could observe.
- RelayerInstance.Queried: reads the config from the same SDK object that was checked
  before `initSDK`. A mutation of `window.relayerSDK` by `initSDK` is not modelled.
- Web3State.Store: listeners are identified by numbers, and a notification is recorded as
  the set of listeners notified. The listeners' own effects are not modelled.
- UI components, `hooks/useWallet.ts`, `hooks/useWeb3.ts`, deployment, and percentage
  rendering in floating point.

## Findings

| source | as written | input that shows it | evidently intended | confidence | as-written member | corrected member |
|---|---|---|---|---|---|---|
| hooks/useVoting.ts:53-56 | On the wrong network `vote` shows an alert and returns normally, so `handleVote` records a local "yes"/"no" vote, toasts "Vote Submitted" and refreshes, though no ballot was sent. | `vote` resolves with the wrong-network alert: outcome `Ok(Alerted(WrongNetworkText))`. | Record the vote, toast success and refresh only when the ballot was actually sent. | not executed | Page.HandleVoteAsWritten, Page.AlertRecordedAsWritten | Page.HandleVote |
