# Flashloan engine: a verified model

This project models, in Dafny 4.11, the parts of a flash-loan engine (written in Rust, with one
small Python class) that carry its logic, and proves what they are for:

- **Byte codecs.** `Rlp.dfy`, `Words.dfy`, `Transaction.dfy`, `Calldata.dfy` and `PoolIndex.dfy` model the
  RLP encoders, the EIP-1559 and EIP-155 envelopes, ABI words with a dynamic tail, and the decoder of
  Initialize logs. Decoders written for the model invert the encoders; where the code departs from a
  standard, the exact condition is proved. `Bytes.dfy` holds base-256 arithmetic.
- **The closed-loop builder.** `BusinessStore.dfy` is the pipeline over the stored tables: candidates
  (`CandidateStage.dfy`), directed observations (`ObservationStage.dfy`) and triangular loops (`LoopStage.dfy`),
  per anchor, each stage replacing rows. `LoopSpec.dfy` says, key by key and from the source tables
  alone, which row must be stored; `StageFrames.dfy` and `ReadBack.dfy` carry that through the stages; `BuildAll`
  is proved to leave exactly this content, and `LoopTheorems.dfy` proves what the content means (real
  triangles, completeness, rebuilds, order of anchors, counts). `Selection.dfy` and `EdgeIndex.dfy` are the
  ranking and the pool lookup it rests on.
- **The evidence store.** `Evidence.dfy`: the upsert that decides which liquidity evidence may overwrite
  which, in closed form over unbounded histories, and the prune that keeps two tables consistent.
- **The direction migration.** `PairSplit.dfy` and `Migration.dfy`: the split of undirected pairs, the
  observation backfill and the integrity count, tied to the builder.
- **Merging and paging.** `LiveRefresh.dfy` and `HyperSync.dfy`.
- **Redaction** of RPC texts (`Redaction.dfy`) and the **error stack** over trees of modules (`ErrorStack.dfy`).

Tables are maps from conflict keys to rows; a value the source only copies is kept only where a
property needs it. Classes (`BusinessStore`, `EvidenceStore`, `MigrationStore`, `ErrorStack`) update their
tables in place and are proved against functions of the old state. To verify the whole project,
run `dafny verify dfyconfig.toml`.

Where the code and its standards or documentation disagree the model follows the code:
integers get a zero byte before a leading byte of 0x80 or more (`Rlp.IntegerCanonicalIff`), also where they are
hashed for signing (`Transaction.TypedVerifierAgreesIff`); a legacy transaction with chain id 0 is signed over nine
items but marked as pre-EIP-155 (`Transaction.VerifierAgreesIff`); r and s are
written as full words (`Transaction.RawStrictIff`); the quote's fee, tick spacing and amount are not checked against
their types (`Calldata.TypedRoundTripIff`); a paged fetch does not check that it reached the end
(`HyperSync.FetchCompleteIff`); an error without a code is lost two levels up (`ErrorStacks.TreeMasksIff`); event words
are truncated to 128 bits (`Words.UnsignedReadExactIff`); a pool key has 136 bytes, not the 160 of the ABI
(`PoolIndex.KeyBytesIdentify`); the observation backfill does not compare its flag and count columns (`Migration.CountsRightIff`).

The builder's results assume stored pools in canonical form (`LoopSpec.WellStored`): unique non-empty ids and two
normalized colon-free token addresses in ascending order. An import establishes presence and normal form; order and
the absence of colons are an assumption on its payload (`Evidence.ImportedForm`); of decoded Initialize logs
`PoolIndex.KeyBytes` demands the order. What a property needs beyond that is in its lemma; where the plain claim is false of the
code, an if-and-only-if gives the exact condition.

## Model

| member | source | states |
|---|---|---|
| Rlp.RoundTrip | flashloan/rs-src/src/execution.rs:90-142 | Decoding the encoding of any tree of strings and lists, of any depth and with payloads below 2^64 bytes, followed by any suffix gives back that tree and that suffix. |
| Rlp.RoundTripAll | flashloan/rs-src/src/execution.rs:123-142 | A list payload decodes item by item to exactly the items it was built from. |
| Rlp.DecodeSound | flashloan/rs-src/src/execution.rs:90-142 | Whatever the decoder accepts is the encoding of the item it returns followed by the rest: nothing else decodes. |
| Rlp.DecodeAllSound | flashloan/rs-src/src/execution.rs:123-142 | The same for a whole list payload. |
| Rlp.PrefixFree | flashloan/rs-src/src/execution.rs:90-142 | Two encodings with suffixes are equal exactly when the trees and the suffixes are: the encoding is injective and prefix-free. |
| Rlp.StringOnWire | flashloan/rs-src/src/execution.rs:90-108 | A single byte below 80 hex stands for itself; up to 55 bytes follow 80 hex plus their number; more follow b7 hex plus the length of their length and that length, which has no leading zero. |
| Rlp.ListOnWire | flashloan/rs-src/src/execution.rs:123-142 | A list’s joined items follow the same prefixes with c0 and f7 hex. |
| Rlp.IntegerPayload | flashloan/rs-src/src/execution.rs:110-121 | The payload written for an integer has that value in base 256, extra zero byte included. |
| Rlp.IntegerCanonicalIff | flashloan/rs-src/src/execution.rs:110-121 | The payload is the minimal one of the Yellow Paper (appendix B) exactly when the integer is 0 or its leading byte is below 0x80. |
| Rlp.IntegerPadWitness | flashloan/rs-src/src/execution.rs:115-119 | 128 is written as 82 00 80 where the minimal form is 81 80. |
| Rlp.TrimmedLength | flashloan/rs-src/src/execution.rs:99-103 | Dropping the leading zeros of the eight length bytes leaves the minimal big-endian length. |
| Rlp.FirstNonZero | flashloan/rs-src/src/execution.rs:99-103 | The scan stops at the first non-zero byte, or at the last byte when all are zero. |
| Rlp.EncodePayload | flashloan/rs-src/src/execution.rs:94-107 | The buffer ends up as the right short or long header followed by the payload. |
| Rlp.EncodeBytesBuffer | flashloan/rs-src/src/execution.rs:90-108 | The buffer-filling string encoder writes the encoding for which the round trip is proved. |
| Rlp.EncodeIntegerBuffer | flashloan/rs-src/src/execution.rs:110-121 | The integer encoder writes the encoding of the padded payload. |
| Rlp.EncodeListBuffer | flashloan/rs-src/src/execution.rs:123-142 | The list encoder joins the items and writes the right header before them. |
| Bytes.ToBytesUnique | flashloan/rs-src/src/execution.rs:86-88 | A byte string without leading zero is the minimal big-endian form of its value, and the only one. |
| Bytes.ValueConcat | flashloan/rs-src/src/execution.rs:86-88 | Big-endian values of joined byte strings combine with the power of 256 of the second length. |
| Bytes.FixedValue | flashloan/rs-src/src/execution.rs:144-152 | Left-padding to a fixed width keeps the value. |
| Words.U256Value | flashloan/rs-src/src/execution.rs:144-152 | A word exists exactly for values below 2^256, has 32 bytes and holds the value. |
| Words.ReadI256 | flashloan/rs-src/src/pool_index.rs:46-61 | The byte loop over bits 127 to 0 with the sign step computes the specified 128-bit read, or fails on short data. |
| Words.SignedReadIsLowBits | flashloan/rs-src/src/pool_index.rs:46-61 | For any word the signed read is the low 128 bits read as two’s complement. |
| Words.SignedReadExactIff | flashloan/rs-src/src/pool_index.rs:46-61 | The signed read is the word’s two’s complement value exactly when that value fits 128 bits. |
| Words.UnsignedReadExactIff | flashloan/rs-src/src/pool_index.rs:38-44 | Reading a written word gives the value modulo 2^128, hence the value itself exactly below 2^128. |
| Words.SignedRoundTrip | flashloan/rs-src/src/execution.rs:154-163 | A 64-bit integer written as a signed word is its two’s complement over 256 bits and is read back unchanged. |
| Transaction.PreimageRecovers | flashloan/rs-src/src/execution.rs:288-341 | From the signing preimage of a type-2 or legacy transaction every field is read back, integers by value; only the access list is not there. |
| Transaction.RawRecovers | flashloan/rs-src/src/execution.rs:393-422 | From a raw transaction the unsigned fields, chain id, parity, r and s are all read back. |
| Transaction.PreimagesAgree | flashloan/rs-src/src/execution.rs:371-384 | Two preimages are equal exactly when the transactions agree on every recovered field. |
| Transaction.KindsNeverCollide | flashloan/rs-src/src/execution.rs:371-384 | A type-2 and a legacy preimage are never equal. |
| Transaction.RawFollowsPreimage | flashloan/rs-src/src/execution.rs:393-422 | Equal preimages with equal signatures give equal raw transactions. |
| Transaction.LegacyVInverse | flashloan/rs-src/src/execution.rs:411-417 | The legacy v value determines chain id and parity uniquely. |
| Transaction.VerifierAgreesIff | flashloan/rs-src/src/execution.rs:319-341 | A verifier that follows EIP-155 (section "Specification"), with integers as the Yellow Paper has them, rebuilds the signed preimage from the legacy fields and v exactly when the chain id is not 0 (otherwise nine items are signed but v is 27 or 28) and chain id, nonce, gas price, gas and amount are each 0 or have a leading byte below 0x80. |
| Transaction.TypedVerifierAgreesIff | flashloan/rs-src/src/execution.rs:288-317 | A verifier that follows EIP-1559 (section "Specification") rebuilds the signed preimage exactly when all six integer fields are 0 or have a leading byte below 0x80. |
| Transaction.PaddedNonceWitness | flashloan/rs-src/src/execution.rs:110-121 | With nonce 128 on chain 1 the verifier’s preimage is not the one that is signed. |
| Transaction.WordCanonicalIff | flashloan/rs-src/src/execution.rs:400-401 | A signature word has the form of an RLP integer exactly when it is at least 2^248: shorter values keep their leading zeros. |
| Transaction.RawStrictIff | flashloan/rs-src/src/execution.rs:393-422 | All integers of a raw transaction have the form that EIP-1559 and EIP-155 give them exactly when every integer field (for a legacy one v) is 0 or has a leading byte below 0x80 and r and s are at least 2^248. |
| Transaction.AssembleSigned | flashloan/rs-src/src/execution.rs:371-432 | The list assembly yields the raw transaction of the specification, or fails exactly with the first field or signature word that is invalid. |
| Transaction.RawStartsWith | flashloan/rs-src/src/execution.rs:365-422 | A raw transaction starts with 02 exactly when the type is 2, or is absent with a fee cap present; otherwise with the first byte of a list. |
| Transaction.SignedOkIff | flashloan/rs-src/src/execution.rs:288-432 | Signing succeeds exactly when the recipient is empty or 20 bytes, r and s fit a word, and nonce, gas and the fee fields of the request’s kind (with the chain id for type 2) are present. |
| Transaction.MissingNamed | flashloan/rs-src/src/execution.rs:288-341 | The missing field reported is the first absent one in the order of the request’s kind. |
| Calldata.RoundTrip | flashloan/rs-src/src/execution.rs:201-257 | Quote calldata, read by a decoder that takes whole words, gives back the selector and all eight arguments, for any hook data; absent hooks read as the zero address. |
| Calldata.HooksEncoded | flashloan/rs-src/src/execution.rs:201-230 | Quotes of 20-byte addresses are encoded, given hooks as given and absent ones as twenty zero bytes. |
| Calldata.TypedRoundTripIff | flashloan/rs-src/src/execution.rs:201-257 | A decoder for the declared types (Solidity ABI, section "Formal Specification of the Encoding") accepts the calldata, with the same arguments, exactly when the fee fits uint24, the tick spacing int24 and the amount uint128. |
| Calldata.OffsetFindsTail | flashloan/rs-src/src/execution.rs:232-257 | The offset word points exactly at the length word of the dynamic tail. |
| Calldata.HeadWords | flashloan/rs-src/src/execution.rs:201-257 | Each head word sits at its own 32-byte slot and holds its own argument. |
| Calldata.TailWords | flashloan/rs-src/src/execution.rs:186-195 | The tail is a whole number of words and carries exactly the pad length of zeros after the data. |
| Calldata.PaddingMinimal | flashloan/rs-src/src/execution.rs:191-193 | No shorter padding would reach a word boundary. |
| Calldata.EncodeTail | flashloan/rs-src/src/execution.rs:186-195 | The padding loop produces the length word, the data and the minimal padding. |
| Calldata.BuildKeyWords | flashloan/rs-src/src/execution.rs:201-230 | The five pool-key words, or an address error exactly when an address does not have 20 bytes. |
| Calldata.BuildCalldata | flashloan/rs-src/src/execution.rs:232-257 | The whole calldata, or the precise error of the first argument that cannot be encoded. |
| PoolIndex.DecodesEmitted | flashloan/rs-src/src/pool_index.rs:111-140 | Decoding an Initialize log whose topics end in two addresses gives those addresses as currencies and the event’s fields, with the square-root price modulo 2^128; it is the currency-order error exactly when the first address is not below the second. |
| PoolIndex.TopicEndsInAddress | flashloan/rs-src/src/pool_index.rs:115-116 | The last twenty bytes of a topic are the address, whatever precedes them. |
| PoolIndex.ReadsHeld | flashloan/rs-src/src/pool_index.rs:118-131 | The five data words are read back as the event that they hold. |
| PoolIndex.KeyBytes | flashloan/rs-src/src/pool_index.rs:83-104 | A pool key has 136 bytes and exists exactly when the first currency is strictly below the second. |
| PoolIndex.KeyLayout | flashloan/rs-src/src/pool_index.rs:90-103 | Both addresses and the hooks stand in order, each after twelve zeros; the fee takes eight bytes before 28 zeros and the tick spacing four, modulo 2^32. |
| PoolIndex.KeyBytesIdentify | flashloan/rs-src/src/pool_index.rs:83-104 | Two keys have equal bytes exactly when they are equal, and the bytes are never those of the 160-byte ABI form. |
| Redaction.RedactRpcText | flashloan/rs-src/src/execution.rs:447-461 | The scanning loop terminates and replaces every authority by the marker, for every string. |
| Redaction.RedactsLink | flashloan/rs-src/src/execution.rs:447-461 | What stands between the first "://" and the next slash, question mark, number sign or white space becomes [REDACTED], and the rest is redacted in the same way. |
| Redaction.RedactsNothing | flashloan/rs-src/src/execution.rs:447-461 | A text without "://" stays as it is. |
| Redaction.AuthorityRuns | flashloan/rs-src/src/execution.rs:451-453 | An authority ends before the first slash, question mark, number sign or white space, or at the end of the text. |
| Redaction.NothingExposed | flashloan/rs-src/src/execution.rs:447-461 | In the result every "://" is followed at once by the marker. |
| Redaction.RedactIdempotent | flashloan/rs-src/src/execution.rs:447-461 | Redacting twice is redacting once. |
| Redaction.RevealsOnlyOutside | flashloan/rs-src/src/execution.rs:447-461 | Two texts redact to the same result exactly when they agree outside their authorities. |
| Redaction.ParseRenders | flashloan/rs-src/src/execution.rs:447-461 | Every text splits into plain parts and links, and rendering the parts gives the text back. |
| Redaction.ParseUnique | flashloan/rs-src/src/execution.rs:447-461 | That split is the only well-formed one. |
| HyperSync.QueryAllLogs | flashloan/rs-src/src/hypersync.rs:132-166 | The cursor loop asks at the specified cursors and returns all their logs, or the first failure. |
| HyperSync.CursorsFollow | flashloan/rs-src/src/hypersync.rs:145-163 | The first page is asked at the start, each further one at the next block that the page before names; a last page that succeeded names none, none past its cursor, or one past the end of the range. |
| HyperSync.FetchGathers | flashloan/rs-src/src/hypersync.rs:143-165 | The fetch succeeds exactly when every page asked does, with all their logs in order; it fails with the error of the last page asked. |
| HyperSync.CursorsAdvance | flashloan/rs-src/src/hypersync.rs:145-163 | Cursors strictly increase inside the range, so there are at most to - from + 1 queries. |
| HyperSync.FetchIsWindow | flashloan/rs-src/src/hypersync.rs:143-165 | With pages that each hold exactly the logs up to where they say they reach, the result is the logs from the start to the block reached, once and in order. |
| HyperSync.FetchGapIff | flashloan/rs-src/src/hypersync.rs:143-165 | Over a given chain the result is complete exactly when no log lies between the block reached and the end. |
| HyperSync.FetchCompleteIff | flashloan/rs-src/src/hypersync.rs:159-163 | A successful fetch is complete, whatever chain its pages come from, exactly when the last page names a next block past the range or holds a log of the very last block; the loop checks neither. |
| HyperSync.FetchComplete | flashloan/rs-src/src/hypersync.rs:159-163 | When the last page names a next block past the range, every log in the range is there once and in order. |
| HyperSync.TruncationWitness | flashloan/rs-src/src/hypersync.rs:159-163 | An empty page without a next block makes the fetch succeed with a log of the range missing. |
| HyperSync.WindowSplit | flashloan/rs-src/src/hypersync.rs:143-165 | Adjacent block windows join without loss or repetition. |
| LiveRefresh.MergePoolIndex | flashloan/rs-src/src/live_refresh.rs:220-298 | The retain-and-push loop computes the specified merge, and the block is the payload’s or the highest one named. |
| LiveRefresh.AcceptedIff | flashloan/rs-src/src/live_refresh.rs:266-280 | Exactly the payload’s objects with a non-empty id are merged, under their id in lower case. |
| LiveRefresh.MergeClosedForm | flashloan/rs-src/src/live_refresh.rs:253-286 | A merge is the untouched base pools in their order, followed by the last on-chain entry of every id. |
| LiveRefresh.MergeUniqueIff | flashloan/rs-src/src/live_refresh.rs:253-286 | Ids are unique afterwards exactly when the untouched base ids are; in particular whenever the base ids are. |
| LiveRefresh.MergeOverrides | flashloan/rs-src/src/live_refresh.rs:279-280 | The last entry of an id after the merge is the payload’s last entry of it, or the base’s when the payload has none. |
| LiveRefresh.MergeConcat | flashloan/rs-src/src/live_refresh.rs:253-286 | Merging A and then B is merging A followed by B. |
| LiveRefresh.MergeAgain | flashloan/rs-src/src/live_refresh.rs:253-286 | Merging the same payload again changes nothing. |
| LiveRefresh.HighestIsMaximum | flashloan/rs-src/src/live_refresh.rs:281-293 | The block tracked is an upper bound of all block numbers and one of them, or the start. |
| LiveRefresh.ScanBlocks | flashloan/rs-src/src/live_refresh.rs:287-293 | The second loop takes the maximum over both block fields of all merged pools. |
| ErrorStacks.RunClosedForm | libs/errorstack/error_stack.py:56-99 | After any sequence of operations the stack holds all errors in the order they came, and an OK stamp (the last one offered) only when there is none. |
| ErrorStacks.RunKeepsErrors | libs/errorstack/error_stack.py:56-99 | Later operations neither lose nor reorder recorded errors and never let a stamp stand beside one. |
| ErrorStacks.ReloadKeepsListIff | libs/errorstack/error_stack.py:114-149 | Serializing a stack and loading it again shows the same list, with empty module names read as "unknown", exactly when no error has code 0 or there is only one error. |
| ErrorStacks.BuildGathers | libs/errorstack/error_stack.py:76-99 | Over any tree of modules and foreign rows in which no coded stamp is shown below, a module holds its own errors, the failing rows it adopts itself, and of all errors further down exactly those with a code, in order. |
| ErrorStacks.TreeConcatenatesIff | libs/errorstack/error_stack.py:76-99 | For every tree the root holds the in-order concatenation of all errors exactly when, below it, no coded stamp is shown and every module’s error has a code and a module name. |
| ErrorStacks.TreeShowsRootOkIff | libs/errorstack/error_stack.py:97-99 | For every tree whose root supplies a stamp, the root shows exactly that stamp if and only if no error arrives at it and no coded stamp is shown below. |
| ErrorStacks.TreeNeverMasks | libs/errorstack/error_stack.py:65-74 | With an error that has a code anywhere in any tree, no OK stamp is left at the root. |
| ErrorStacks.TreeMasksIff | libs/errorstack/error_stack.py:86-98 | A tree’s errors all vanish exactly when they are uncoded rows from below a child module and no coded stamp is shown. |
| ErrorStacks.LoudIsHeard | libs/errorstack/error_stack.py:86-88 | A stamp with a non-zero code that is shown anywhere reaches every module above as an error. |
| ErrorStacks.RowsSurvive | libs/errorstack/error_stack.py:89-93 | Of foreign rows, the module that adopts them keeps all failing ones, and its parent exactly those whose code is present and not zero. |
| ErrorStacks.RowBrings | libs/errorstack/error_stack.py:126-139 | A row brings exactly one body, in its place, unless its code is the number 0: its module, code and message, where a row without module falls back to its source and error key and one without code to 0. |
| ErrorStacks.ChildForms | libs/errorstack/error_stack.py:84-97 | A child stack counts as its list, a mapping as the list it carries or else as one row, an absent child as nothing. |
| ErrorStacks.ChildrenInOrder | libs/errorstack/error_stack.py:82-97 | The rows of several children come in the children’s order. |
| ErrorStacks.NonzeroStampWitness | libs/errorstack/error_stack.py:86-88 | A stamp whose code is not 0 is taken for an error by the parent. |
| ErrorStacks.MissingCodeWitness | libs/errorstack/error_stack.py:86-98 | A mapping without a code is adopted as an error of code 0, which the next parent drops and masks with its own OK stamp. |
| ErrorStacks.ErrorStack.constructor | libs/errorstack/error_stack.py:45-50 | A stack filled from rows is one push after another. |
| ErrorStacks.ErrorStack.PushError | libs/errorstack/error_stack.py:56-63 | The whole new state of a push, and the item returned. |
| ErrorStacks.ErrorStack.MarkOkElement | libs/errorstack/error_stack.py:65-74 | The whole new state of a stamp. |
| ErrorStacks.ErrorStack.AdoptChildren | libs/errorstack/error_stack.py:76-99 | The whole new state of an adoption, also when a stack is its own child. |
| Evidence.HasLiquidityClosedForm | flashloan/rs-src/src/evidence.rs:667-677 | After any history for a pool, the liquidity flag is the last known value from a row with a source or a block number if one exists, else the first known value, else unknown. |
| Evidence.LastAttributedDecides | flashloan/rs-src/src/evidence.rs:667-677 | A known value given with a source or block stands until the next one given so, whatever weaker rows come between. |
| Evidence.FirstUnattributedDecides | flashloan/rs-src/src/evidence.rs:667-677 | While no value comes with a source or block, the first known one stands. |
| Evidence.GuardedClosedForm | flashloan/rs-src/src/evidence.rs:678-706 | Liquidity, index and TVL are the last value given by a row that had a source or block, or that came while the flag was unknown. |
| Evidence.PlainClosedForm | flashloan/rs-src/src/evidence.rs:707-731 | The other columns keep their last given value; balances and depth band follow the last row. |
| Evidence.TimesClosedForm | flashloan/rs-src/src/evidence.rs:714-730 | Depth score and reading time keep their last given value; the observation and refresh times follow the last row. |
| Evidence.LastTextStands | flashloan/rs-src/src/evidence.rs:707-725 | A non-empty depth status or square-root price stays while only empty ones follow it. |
| Evidence.WeakNeverOverrides | flashloan/rs-src/src/evidence.rs:667-706 | Once the flag is known, a row without source and block changes neither the flag nor liquidity, index or TVL. |
| Evidence.ImportedForm | flashloan/rs-src/src/evidence.rs:404-506 | An import leaves tokens present and normalized; it takes over order and colons from its payload, so stored pools are canonical when the usable rows are. |
| Evidence.DescendingWitness | flashloan/rs-src/src/evidence.rs:404-427 | A payload row with descending tokens is stored that way. |
| Evidence.PutSnapshotsReplays | flashloan/rs-src/src/evidence.rs:657-733 | An upsert of many rows replays, for each pool, that pool’s own rows in order and touches no other. |
| Evidence.SourceStored | flashloan/rs-src/src/evidence.rs:622-629 | A named row’s source is stored in normal form; an empty one leaves the stored source as it was. |
| Evidence.PruneLeavesConfirmed | flashloan/rs-src/src/evidence.rs:905-1053 | After a full prune the scope’s snapshots are exactly the known non-zero ones and its pools exactly those with such a snapshot; other scopes keep everything. |
| Evidence.PruneKeeps | flashloan/rs-src/src/evidence.rs:905-1053 | With either flag: the scope’s known zeros go with their pools, and with the flag also the unknown snapshots, their pools and the pools without snapshot; what stays is unchanged, and other scopes keep everything. |
| Evidence.RemovableIff | flashloan/rs-src/src/evidence.rs:908-1024 | A pool id is collected exactly when its snapshot is deleted or, in a full prune, missing. |
| Evidence.PruneAgain | flashloan/rs-src/src/evidence.rs:905-1053 | A second prune with the same flag, either value, finds nothing to delete. |
| Evidence.PruneAbsorbs | flashloan/rs-src/src/evidence.rs:905-1053 | Pruning zeros first and everything unconfirmed later ends where one full prune ends. |
| Evidence.DeletionCounts | flashloan/rs-src/src/evidence.rs:1055-1089 | After equals before minus deleted, for snapshots and for pools. |
| Evidence.EvidenceStore.UpsertPools | flashloan/rs-src/src/evidence.rs:391-506 | The loop leaves the specified table and returns the number of usable rows. |
| Evidence.LastRowStored | flashloan/rs-src/src/evidence.rs:404-506 | The last row of an id that has an id and both tokens beyond blanks is stored, each text in normal form and in its own column. |
| Evidence.OtherPoolsKept | flashloan/rs-src/src/evidence.rs:391-506 | A pool that no such row of the scope names is untouched. |
| Evidence.PoolsCounted | flashloan/rs-src/src/evidence.rs:404-477 | The pool count is the number of rows with an id and both tokens beyond blanks. |
| Evidence.EvidenceStore.UpsertSnapshots | flashloan/rs-src/src/evidence.rs:508-735 | The loop applies the upsert row by row and counts the rows with an id. |
| Evidence.SnapshotsCounted | flashloan/rs-src/src/evidence.rs:518-640 | The snapshot count is the number of rows whose id is more than blanks. |
| Evidence.EvidenceStore.Clear | flashloan/rs-src/src/evidence.rs:775-810 | Both tables lose exactly the scope. |
| Evidence.EvidenceStore.Import | flashloan/rs-src/src/evidence.rs:812-870 | One import: optional clearing, pools, snapshots, then index snapshots, with the three counts. |
| Evidence.ImportReplaces | flashloan/rs-src/src/evidence.rs:812-870 | After a replacing import the scope holds what the payload gives to an empty store, and every other scope is as it was. |
| Evidence.EvidenceStore.Prune | flashloan/rs-src/src/evidence.rs:872-1089 | The step-by-step prune with its growing set of removable ids leaves the specified tables; its report counts the scope’s rows before and after, the known zeros and, with the flag, the unknown snapshots deleted. |
| Selection.RecommendBest | flashloan/rs-src/src/business_builder.rs:291-313 | At most five distinct confirmed pools in order; an omitted confirmed pool with an unselected id beats none of them and is omitted only when five are taken; none are taken only when none is confirmed. |
| Selection.ObserveBest | flashloan/rs-src/src/business_builder.rs:1181-1210 | The same for the three observed pools among those that have an id. |
| Selection.RecommendOrder | flashloan/rs-src/src/business_builder.rs:218-289 | Recommendations run from higher to lower score, then lower to higher fee, then by id; the score is the rank of the asked direction, or 0 for a pool of other tokens. |
| Selection.ObserveOrder | flashloan/rs-src/src/business_builder.rs:1181-1210 | Observed pools run from higher to lower score of the asked direction, then by id; the fee takes no part. |
| Selection.RankIsScore | flashloan/rs-src/src/business_builder.rs:218-275 | A pool of the two tokens scores by the direction from its own first or second token; any other pool, or a direction with an empty token, scores 0. |
| Selection.HeadHasHighestScore | flashloan/rs-src/src/business_builder.rs:281-313 | No confirmed pool has a higher score in the asked direction than the first recommendation or the first observed pool. |
| Selection.RecommendAnyOrder | flashloan/rs-src/src/business_builder.rs:291-313 | With unique ids the recommendations are the same for every order of the input. |
| Selection.TakeBest | flashloan/rs-src/src/business_builder.rs:301-312 | Walking any sorted ranking with a set of seen ids keeps its best ones. |
| Selection.SortSorts | flashloan/rs-src/src/business_builder.rs:296-300 | The stable sort by key yields a sorted arrangement of the same pools. |
| Selection.SelectRecommendations | flashloan/rs-src/src/business_builder.rs:291-313 | The filter, sort and walk return the recommendations. |
| Selection.ObservationPoolIds | flashloan/rs-src/src/business_builder.rs:1181-1210 | The loop returns the ids of the observed pools, in order. |
| Selection.TakeFirst | flashloan/rs-src/src/business_builder.rs:301-312 | The loop that stops at the cap keeps what the full walk would keep. |
| EdgeIndex.PoolsByEdge | flashloan/rs-src/src/business_builder.rs:462-476 | The index holds exactly the non-empty edges, each with its pools in table order. |
| EdgeIndex.ScanCounts | flashloan/rs-src/src/business_builder.rs:462-493 | The pools of a token pair are those under its two text keys together. |
| EdgeIndex.LookupScanIff | flashloan/rs-src/src/business_builder.rs:478-493 | A lookup equals a scan for the pair exactly when the pair is not stored in both orientations. |
| EdgeIndex.LookupPrefersOrder | flashloan/rs-src/src/business_builder.rs:478-493 | A lookup gives the pools that hold the tokens in the order asked, in table order, and only without any those in the other order; with an empty token it gives none. |
| EdgeIndex.LookupIsScan | flashloan/rs-src/src/business_builder.rs:478-493 | For pools in canonical token order a lookup returns exactly, in order, the pools whose token set is the pair, whichever way round it is asked. |
| Text.PairTextInjective | flashloan/rs-src/src/business_builder.rs:462-476 | The text key of a pair without colons is the key of no other pair. |
| Text.NormMeans | flashloan/rs-src/src/business_builder.rs:52-58 | Normal form and symbol ignore white space around a text and change its letters one by one, to small ones and to capitals. |
| Text.WhitespaceIs | flashloan/rs-src/src/execution.rs:453 | White space is exactly the 25 White_Space characters of the Unicode Character Database (PropList). |
| Text.LessMeans | flashloan/rs-src/src/business_builder.rs:281-289 | Of two texts the first difference decides, and a proper prefix comes first. |
| LoopTheorems.ServesMeans | flashloan/rs-src/src/business_builder.rs:110-124 | A pool may serve a hop exactly when it has a fixed fee of 1 to 3000, no hook, confirmed liquidity and the hop’s two tokens. |
| LoopTheorems.SelectionHeads | flashloan/rs-src/src/business_builder.rs:281-313 | Both selections are non-empty exactly when a usable pool exists, and their first pool serves the hop. |
| LoopTheorems.CandidatePairRows | flashloan/rs-src/src/business_builder.rs:582-794 | A candidate’s forward pair row lists all recommendations from the anchor, best first, the reverse row all those back, and neither names the other direction. |
| LoopTheorems.CandidateTokenRow | flashloan/rs-src/src/business_builder.rs:645-663 | A candidate’s token row holds both directions’ recommendations, best first, and the number of fixed-fee pools of the pair. |
| LoopTheorems.StoredLoopIsTriangle | flashloan/rs-src/src/business_builder.rs:1934-2149 | Every loop row of an anchor is a real triangle: anchor, y, z, anchor with three distinct tokens, each hop served by its own pool. |
| LoopTheorems.AllLoopsAreTriangles | flashloan/rs-src/src/business_builder.rs:2559-2640 | After the full pipeline every loop row in the scope is a real triangle over the stored pools. |
| LoopTheorems.LoopsComplete | flashloan/rs-src/src/business_builder.rs:2559-2640 | After a full build, whatever addresses the anchors share, a loop is stored for y and z exactly when both are candidates with resolved symbols and a usable pool joins them; its pools are the best first hop, best observed middle and best third hop, and its symbol is that of the last anchor at the address. |
| LoopTheorems.ExpectedIff | flashloan/rs-src/src/business_builder.rs:1980-2026 | The source calls for a loop exactly when anchor and both tokens differ, both tokens are listed and named, and each of the three hops has a pool that serves it. |
| LoopTheorems.CandidateIff | flashloan/rs-src/src/business_builder.rs:1575-1630 | An anchor’s counter tokens are exactly the other listed tokens that a serving pool joins to it. |
| LoopTheorems.ResolvedIff | flashloan/rs-src/src/business_builder.rs:102-108 | A token is named exactly when its symbol is more than white space and not 0x with eight hexadecimal digits, in either case of letters. |
| LoopTheorems.LoopWitness | flashloan/rs-src/src/business_builder.rs:1934-2149 | Three pools over three tokens make a well-formed source for which a loop is stored. |
| LoopTheorems.StoredHops | flashloan/rs-src/src/business_builder.rs:2091-2142 | In the final tables a loop has exactly three hop rows, chaining along its path and through its pools; without a loop there is none. |
| LoopTheorems.LoopPoolsAcrossTables | flashloan/rs-src/src/business_builder.rs:2002-2033 | A stored loop’s outer pools are the stored rank-1 recommendations of their directions and its middle pool is the stored optimal pool observed from y to z. |
| LoopTheorems.LoopStageMeetsSource | flashloan/rs-src/src/business_builder.rs:1934-2149 | From a faithful reading of the earlier stages the loop stage writes exactly what the pool and symbol tables call for. |
| LoopTheorems.RebuildIgnoresPrior | flashloan/rs-src/src/business_builder.rs:2481-2520 | Two builds with equal rows outside the scope end in equal tables, whatever was in the scope. |
| LoopTheorems.RebuildAgain | flashloan/rs-src/src/business_builder.rs:2559-2640 | Building again changes nothing. |
| LoopTheorems.AnyOrder | flashloan/rs-src/src/business_builder.rs:2585-2629 | Jobs with distinct symbols and anchor addresses have the same content in any order. |
| LoopTheorems.RebuildAnyOrder | flashloan/rs-src/src/business_builder.rs:2585-2629 | Whatever the order of such anchors, the rebuilt tables are the same. |
| LoopTheorems.AnyOrderUpToSymbol | flashloan/rs-src/src/business_builder.rs:2585-2629 | For anchors that share addresses, another order changes no row except the symbol of a loop, and that exactly when another symbol is listed last at its address. |
| LoopSpec.ContentFromOne | flashloan/rs-src/src/business_builder.rs:2585-2629 | Every row of a rebuilt scope comes from one of the anchors. |
| LoopTheorems.OwnContent | flashloan/rs-src/src/business_builder.rs:2585-2629 | An anchor’s own keys hold that anchor’s rows, also when several symbols share an address; a loop then carries the symbol of the last anchor listed at the address. |
| LoopTheorems.DirectionsCount | flashloan/rs-src/src/business_builder.rs:1811-1855 | There are n(n - 1) ordered pairs of n distinct tokens. |
| LoopTheorems.DirectionIntegrity | flashloan/rs-src/src/business_builder.rs:1811-1855 | An anchor with n candidate tokens has exactly n(n - 1) observation rows. |
| StageFrames.QueriedPairs | flashloan/rs-src/src/business_builder.rs:370-425 | The index over only the queried fixed-fee pools answers a token pair as the whole pool table would. |
| StageFrames.LoopsReplaced | flashloan/rs-src/src/business_builder.rs:2155-2202 | A loop build leaves stored loops and hops of another scope or market, or of another symbol and anchor, as they were, and deletes those of its own market and symbol that it does not write again. |
| CandidateStage.RecommendationRows | flashloan/rs-src/src/business_builder.rs:764-791 | Rows for one direction: each recommendation under its own key with its one-based rank. |
| CandidateStage.CounterRows | flashloan/rs-src/src/business_builder.rs:610-791 | Exactly the token row, two pair rows and recommendation rows of one counter token. |
| CandidateStage.CandidateWriteRows | flashloan/rs-src/src/business_builder.rs:608-793 | The loop over counters writes the rows of exactly those that share a usable pool with the anchor. |
| CandidateStage.TokensFromIndex | flashloan/rs-src/src/business_builder.rs:1601-1615 | Splitting the edge keys finds every token joined to the anchor. |
| CandidateStage.TokensFromUniverse | flashloan/rs-src/src/business_builder.rs:1576-1600 | The retained universe tokens include every one joined to the anchor. |
| CandidateStage.CountersAreCandidates | flashloan/rs-src/src/business_builder.rs:1575-1616 | Either way of resolving tokens leads to the same candidates, those determined by the pool table. |
| CandidateStage.CandidateTables | flashloan/rs-src/src/business_builder.rs:1548-1622 | The stage’s rows are the candidate rows for the pool table’s candidates, key by key. |
| ObservationStage.ObservationRows | flashloan/rs-src/src/business_builder.rs:1811-1855 | The double loop over tokens writes one row per ordered pair of distinct tokens and one per pool seen. |
| ObservationStage.ObservationTables | flashloan/rs-src/src/business_builder.rs:1774-1857 | The stage’s rows are the observation rows for the pool table and the tokens, key by key. |
| LoopStage.LoadHeads | flashloan/rs-src/src/business_builder.rs:1948-1965 | Per direction the first recommendation in the order of counter address and rank. |
| LoopStage.HeadExistsIff | flashloan/rs-src/src/business_builder.rs:1948-1965 | A pool is read for a direction and hop exactly when a recommendation of that direction and hop is stored for the anchor. |
| LoopStage.HeadIs | flashloan/rs-src/src/business_builder.rs:1948-1965 | It is the pool of a recommendation such that every other has a later counter or, with the same counter, no lower rank. |
| LoopStage.LoadMiddles | flashloan/rs-src/src/business_builder.rs:1966-1974 | Per observed direction the optimal pool, or the first listed one. |
| LoopStage.MiddleExistsIff | flashloan/rs-src/src/business_builder.rs:1966-1974 | A middle pool is read for a direction exactly when an observation row of it is stored for the anchor. |
| LoopStage.MiddleIs | flashloan/rs-src/src/business_builder.rs:1966-1974 | The middle pool read is an observation row’s optimal pool, or its first listed pool when that is blank. |
| LoopStage.LoadReading | flashloan/rs-src/src/business_builder.rs:2268-2409 | Everything the stage reads for an anchor symbol: tokens, observed pools, first recommendations and middles. |
| LoopStage.LoopRows | flashloan/rs-src/src/business_builder.rs:1979-2148 | The loops over y and z write exactly the loop row and three hop rows of every qualifying pair. |
| LoopStage.StageLoopIff | flashloan/rs-src/src/business_builder.rs:1979-2148 | On any reading, a pair has a loop row exactly when its tokens are read, named and neither equal nor the anchor, and first, third and an observed middle pool are read for the three directions; the row holds these tokens and pools. |
| ReadBack.StagesReadBack | flashloan/rs-src/src/business_builder.rs:2268-2409 | After the first two stages any such reading is the one the source tables determine: best first and third hop, best observed middle, all observed pools. |
| BusinessStores.StagesExtend | flashloan/rs-src/src/business_builder.rs:2593-2623 | One anchor’s three stages extend the scope’s content by exactly that anchor’s rows and keep all earlier anchors and other scopes. |
| BusinessStores.DeletedIsRewritten | flashloan/rs-src/src/business_builder.rs:2151-2202 | Whatever the loop stage deletes but does not write again was no row of this build. |
| BusinessStores.LoadedTokens | flashloan/rs-src/src/business_builder.rs:2522-2557 | The tokens loaded after the candidate stage are the anchor’s candidates. |
| BusinessStores.JobsCoherent | flashloan/rs-src/src/business_builder.rs:2584-2589 | In any list of anchors a symbol always has the one address known for it, so the results that need this hold for every build. |
| BusinessStores.NormalUniverse | flashloan/rs-src/src/business_builder.rs:2571-2582 | The universe in normal form has no repetition, so the candidate stage never rejects it. |
| BusinessStores.BusinessStore.BuildCandidateAnchor | flashloan/rs-src/src/business_builder.rs:1533-1702 | Replaces an anchor symbol’s candidate rows; a missing address and a repeated token list are refused, in this order, with nothing changed. |
| BusinessStores.BusinessStore.BuildMarketObservationAnchor | flashloan/rs-src/src/business_builder.rs:1704-1918 | Replaces an anchor symbol’s observation rows by all directions among the tokens given or stored. |
| BusinessStores.BusinessStore.BuildClosedLoopsAnchor | flashloan/rs-src/src/business_builder.rs:2259-2480 | Replaces an anchor symbol’s loops and their hops by those that the stored rows join up to. |
| BusinessStores.BusinessStore.BuildAnchor | flashloan/rs-src/src/business_builder.rs:2586-2623 | The three stages on top of the anchors built before. |
| BusinessStores.BusinessStore.BuildAll | flashloan/rs-src/src/business_builder.rs:2559-2640 | Leaves other scopes as they were and in the scope exactly the content of the anchors, up to the first one without an address, which is the error reported; the anchors built are coherent. |
| PairSplit.SplitIn | flashloan/rs-src/src/migration.rs:380-426 | A row is in the migrated pair table exactly when it is the last one generated under its key, or had a direction and its key was not generated. |
| PairSplit.SplitDirected | flashloan/rs-src/src/migration.rs:504-511 | Every migrated row has a non-empty direction that equals its address pair. |
| PairSplit.SplitClosedForm | flashloan/rs-src/src/migration.rs:380-426 | For legacy pairs with distinct ends and one row per unordered pair the table is exactly the directional rows not taken over, all forward rows and all reverse rows. |
| PairSplit.SplitKeepsAllIff | flashloan/rs-src/src/migration.rs:380-426 | For every table, both halves of every legacy pair survive exactly when any two rows generated under one key are equal. |
| PairSplit.ExactlyTwo | flashloan/rs-src/src/migration.rs:380-426 | Under a legacy pair’s two directions there are exactly its forward and its reverse row. |
| PairSplit.HalvesMirror | flashloan/rs-src/src/migration.rs:384-410 | The two rows are mutual reverses with address pair equal to direction key, the yc pool only on the forward one and the zc pool only on the reverse. |
| PairSplit.SplitUnique | flashloan/rs-src/src/migration.rs:380-426 | No two migrated rows share a primary key if no two directional rows did before. |
| PairSplit.EitherKeyUnique | flashloan/rs-src/src/migration.rs:7-38 | Tables keyed by address pair and tables keyed by direction both meet that condition. |
| PairSplit.SplitEitherKey | flashloan/rs-src/src/migration.rs:411-425 | Whether an insert replaces by address pair or by direction key, the migrated table is the same, for every table. |
| PairSplit.SplitAgain | flashloan/rs-src/src/migration.rs:380-512 | Migrating again changes nothing, whatever the table. |
| PairSplit.DuplicateWitness | flashloan/rs-src/src/migration.rs:411-425 | A pair stored both ways round loses the yc pool of one of the rows. |
| Migration.BackfillSettles | flashloan/rs-src/src/migration.rs:304-348 | After a backfill no row needs an update: a second pass makes zero updates and changes nothing. |
| Migration.BackfillMeaning | flashloan/rs-src/src/migration.rs:304-348 | The address pair afterwards is the row’s own tokens in order, in lower case; the first listed id is all that is left, and the optimal pool is the stored one unless blank, else that id’s text. |
| Migration.CountsRightIff | flashloan/rs-src/src/migration.rs:322-341 | Flag and count are right afterwards exactly when they were right before or one of the three other columns was not: they are not compared. |
| Migration.ReadPoolKeptIff | flashloan/rs-src/src/migration.rs:307-321 | The pool that the loop stage reads from a row is kept, except from a row without optimal pool whose first array element is no string and which names a pool later. |
| Migration.MigrateAgain | flashloan/rs-src/src/migration.rs:353-681 | A second migration changes no pair or observation row and repeats the first verdict. |
| Migration.MigrationStore.SplitPairs | flashloan/rs-src/src/migration.rs:380-426 | Forward rows, then reverse rows, then the deletion, leave the specified pair table. |
| Migration.MigrationStore.BackfillObservations | flashloan/rs-src/src/migration.rs:259-351 | The loop rewrites exactly the rows that are not up to date and returns their number. |
| Migration.MigrationStore.CheckIntegrity | flashloan/rs-src/src/migration.rs:626-668 | The groups reported are exactly those whose direction count is not n(n - 1), where n counts the candidate token rows of the group under every role. |
| Migration.MismatchedIff | flashloan/rs-src/src/migration.rs:626-668 | A group is reported exactly when it has directions and their number is not n(n - 1) for its n candidate token rows. |
| Migration.MigrationStore.Migrate | flashloan/rs-src/src/migration.rs:353-681 | The split, the backfill and the integrity count in order, over one pair table and one observation table; a failed count is an error although the tables are already rewritten. |
| Migration.BuilderPassesIntegrity | flashloan/rs-src/src/migration.rs:626-674 | Tables written by the builder pass the migration’s integrity count in every group of the scope. |

## Left out

- Hashing, elliptic-curve signing, key handling, hex and JSON parsing: digests and the signature words r, s and parity are given, and operations start from parsed fields.
- HTTP and JSON-RPC calls, async runtimes, Python wrappers, opening databases, DDL and column upgrades: a statement over a table is one step on its contents, and SQL or I/O failures do not occur.
- Floating-point scoring and the evidence behind confirmed liquidity: a pool has an integer rank per direction and a confirmed flag, both given.
- Timestamps, display labels, path texts, selection-basis texts, hop candidate counts, report payloads, and flags that repeat whether another column of the same row is empty.
- The candidate pool rows, the copied liquidity snapshots and the tables of abnormal pools: they are written from the same data and read by no modelled stage.
- Foreign keys. The migration switches them off; the builder, the imports and the prune are modelled for the case where no reference is violated, as a violated one would make their statements fail.
- Tables not written by the modelled operations, such as loop optimizations.
- The order of rows inside one stage: loops over ordered sets and `ORDER BY` are loops over sets in any order, since every row has its own key; where the order decides (recommendations per direction, pools per edge, log pages, merge lists, inserted pair rows) it is modelled.
- Direction keys in the builder are ordered pairs of addresses rather than their joined text; `Text.PairTextInjective` shows that nothing is lost, and the index, the token resolution and the migration use the text.
- Normalizing stored direction keys again when they are read back: they are stored normalized.
- Upper and lower case beyond ASCII letters.
- Words.ReadI256: models the release build, where negating the most negative 128-bit value wraps; a debug build stops there instead.
- Rlp.EncodeListBuffer: payloads of 2^64 bytes or more, which no machine can hold, are excluded; so are such strings and integers for the other encoders.
- Migration.MigrationStore.Migrate: models one pair table and one observation table; the source runs the same steps on two of each, normal and abnormal.
- Codes of error rows other than integers or nothing, such as texts that Python would convert.
- The migration's steps on pool and recommendation rows (direction keys from token pairs, keeping one recommendation per direction and hop) and the rebuilding of tables with new primary keys.
- The scan-state store, pool-tier counts, fee labels, pagination helpers and the capability registry: they would add only easy members.
- Web routes, command-line menus, configuration loading, chain selection, the observer supervisor and liquidation discovery: I/O, or state kept in modules that are not part of this model.
