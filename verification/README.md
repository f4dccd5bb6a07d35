# Owner-key rotation, verified

A Dafny model of a wallet that rotates an owner's signing key through a public registry it
does not control, and proofs of what it promises. The wallet exists twice, in Kotlin and in
Python; both are modelled, down to bytes where bytes decide.

**Cryptography.** SHA-256 and Ed25519 verification are two functions a lemma is given; nothing
is assumed of them. Where a result depends on a hash not colliding, or on a key being able to
sign, the statement says so. Sealed containers are symbolic: a box opens under the key and
associated data it was made with and under nothing else.

**Nondeterminism.** Clocks, network answers, user consent, file-system failures and thread
schedules are inputs: parameters of one call, or the steps of a run over which a theorem
quantifies.

## How the project is laid out

- `CborSpec`, `CborProofs`, `CborWriter`, `CborDecoder`, `CborStandard`, `TextStandard`: the canonical
  CBOR codec (sections 3.4.3, 4.2.1 and 4.2.3 of RFC 8949; keys are ordered length first). The
  writer appends to a byte sink and the reader moves a cursor; both are proved against one printer
  and one grammar, which are proved inverse, and the printer's bytes are proved to be those the
  standards describe (RFC 8949, and RFC 3629 for text).
- `Identity`, `KotlinVerifier`, `PythonVerifier`: identity envelopes, the five operations and the
  two verifiers as specifications. `KotlinHistory` and `PythonHistory` hold their loops.
- `ReadingAgreement`, `VerifierAgreement`, `ChainInvariants`, `ChainExtension`: the two verifiers
  agree on every head and lookup; what every accepted chain keeps; adding one envelope.
- `IdentityEncoding`, `KotlinBuilders`, `LegacyRotation`, `PythonDrafts`, `PythonBundles`: what is
  built reads back, and builders and gates meet the verifier.
- `AtomicFiles`, `Rotation`, `WalletSessions`, `RotationAdapter`, `Transport`: storage, the wallet
  session, its one-use tokens, the dispatch and the conditional PUT, as objects with state.
- `RotationProtocol`, `SessionRefinement`, `KeyRetention`, `TokenRetention`, `RotationHistory`,
  `RotationProgress`: all of that as one step system with any number of sessions, the objects' calls
  as its steps, and the theorems about whole runs: what is kept, what must have come before, what
  each step changes, and that a rotation can complete.
- `LatchRegistry`, `WriteGate`, `PythonWallet`, `CreateContention`, `ReplayJournal`,
  `SignerCapabilities`: the Python write gate and container, file creation, the nonce journal and
  signing capabilities.

## Main results

1. *Key retention*: an intent whose PUT was ever sent is promoted or still latched with both seeds;
   with nonces that do not repeat, so is each single token.
2. *Promotion soundness*: the active key changes only after the latched envelope was read back and
   its chain verified, and that chain ends in an owner-key rotation.
3. *Consent and clearing*: what was sent was approved, verified twice and latched in time; what was
   cleared was never sent, and the registry showed another envelope.
4. *Verifier agreement*: for every head and lookup, both verifiers accept or both reject, exactly
   up to Kotlin's byte budget and hash collisions.
5. *Codec*: decoding inverts encoding exactly on the values within the decoder's limits, and the bytes
   are the standard's.
6. *Builders, gates and bundles* meet the verifier, in both directions.
7. *Storage*: exact outcomes of replace, one winner of create, a container that always reopens to
   exactly what was done to it, a journal that never accepts twice.

Two promises hold only under a condition, and the condition is proved exact.

- The Python write gate keeps ordinary PUTs off a latched file only while a latch stands in the
  adapter's memory. `WriteGate.GateOpenExactly` says when it does not, over all runs of threads,
  sessions and interleaved file writes: the latch was in the file when the adapter started, or a
  write left it there while none stood or before a clearing finished, and neither a latch write
  that reported success nor a confirmation came after. `WriteGate.GateHoldsInOrder` shows that one
  session at a time on one adapter, starting unlatched and losing no latch write, is enough for the
  gate to hold. Five runs show it open: a restart (`RestartIsUnguarded`), a latch write that takes
  effect with an unknown report (`UnknownLatchIsUnguarded`), a second session that writes a cleared
  latch back (`PutBackIsUnguarded`), one whose failed write restores it (`RollbackIsUnguarded`),
  and a latch through another adapter (`OtherAdapterIsUnguarded`).
- The stand-alone legacy candidate check and the check through resolve differ on two kinds of
  candidate. The Kotlin walk rejects an update with the predecessor's own hash, and the stand-alone
  check does not look for one; by `VerifierAgreement.RepeatIsCollision` a repeat on a chain that
  replays is a hash collision. And an intent may name one key twice: then the stand-alone check
  accepts a rotation and resolve an upgrade. `LegacyRotation.LegacyCheckAgrees` says by the
  candidate's hash, operation and signature that they agree on everything else.

## Model

| member | source | states |
|---|---|---|
| CborSpec.HeadInverse | platforms/android-wallet/src/main/kotlin/org/decentwallet/wallet/android/IdentityCbor.kt:138-165 | Reading the argument of a written head gives the argument back, for every major type and argument up to 64 bits, and leaves exactly the bytes behind it. |
| CborSpec.KeyLessTotal | platforms/android-wallet/src/main/kotlin/org/decentwallet/wallet/android/IdentityCbor.kt:177-184 | Length-first order on encoded integer keys is total: two keys are equal or one is less. |
| CborWriter.ByteSink.WriteUnsigned | platforms/android-wallet/src/main/kotlin/org/decentwallet/wallet/android/IdentityCbor.kt:161-165 | Appends the big-endian bytes of the number, one shift per byte, or reports the size limit. |
| CborWriter.ByteSink.WriteHeader | platforms/android-wallet/src/main/kotlin/org/decentwallet/wallet/android/IdentityCbor.kt:138-159 | Appends exactly the shortest head for the major type and argument. |
| CborWriter.ByteSink.WriteInteger | platforms/android-wallet/src/main/kotlin/org/decentwallet/wallet/android/IdentityCbor.kt:104-136 | Appends the shortest form of any integer, positive or negative, through 64 bits and as a bignum beyond. |
| CborWriter.ByteSink.WriteValue | platforms/android-wallet/src/main/kotlin/org/decentwallet/wallet/android/IdentityCbor.kt:59-102 | Succeeds exactly when nesting, collection sizes, text and total size allow it, and then appends exactly the canonical encoding of the value. |
| CborWriter.ByteSink.WriteMap | platforms/android-wallet/src/main/kotlin/org/decentwallet/wallet/android/IdentityCbor.kt:81-98 | Writes the entries of a map in canonical key order, whatever order they were given in. |
| CborWriter.SortEntries | platforms/android-wallet/src/main/kotlin/org/decentwallet/wallet/android/IdentityCbor.kt:83-86 | Sorting keeps exactly the given entries and puts their keys in strict canonical order. |
| CborWriter.CanonicalEntries | platforms/android-wallet/src/main/kotlin/org/decentwallet/wallet/android/IdentityCbor.kt:81-86 | Every entry of the map once, with its encoded key, in the one canonical order of its keys. |
| CborWriter.CompareCanonical | platforms/android-wallet/src/main/kotlin/org/decentwallet/wallet/android/IdentityCbor.kt:177-184 | The sign of the comparison is the length-first order of the two byte strings; zero means equal. |
| CborWriter.EncodeCanonical | platforms/android-wallet/src/main/kotlin/org/decentwallet/wallet/android/IdentityCbor.kt:28-36 | Returns the canonical encoding exactly when the value is writable and fits one mebibyte, and fails otherwise. |
| CborDecoder.Decoder.ReadArgument | platforms/android-wallet/src/main/kotlin/org/decentwallet/wallet/android/IdentityCbor.kt:253-260 | Advances over an argument exactly as the grammar says, or fails where the grammar fails. |
| CborDecoder.Decoder.ReadValue | platforms/android-wallet/src/main/kotlin/org/decentwallet/wallet/android/IdentityCbor.kt:204-237 | The cursor-based reader follows the recursive grammar: same value, same bytes left, same item count, same failures. |
| CborDecoder.Decoder.ReadBigNumber | platforms/android-wallet/src/main/kotlin/org/decentwallet/wallet/android/IdentityCbor.kt:239-251 | Accepts exactly tags 2 and 3 over a magnitude that is non-empty, has no leading zero and exceeds 64 bits. |
| CborDecoder.Decoder.ReadItems | platforms/android-wallet/src/main/kotlin/org/decentwallet/wallet/android/IdentityCbor.kt:214-217 | The list loop reads exactly the items the grammar reads, counting each against the item limit. |
| CborDecoder.Decoder.ReadEntries | platforms/android-wallet/src/main/kotlin/org/decentwallet/wallet/android/IdentityCbor.kt:218-227 | The map loop reads exactly the entries the grammar reads, refusing non-integer and repeated keys. |
| CborDecoder.DecodeCanonical | platforms/android-wallet/src/main/kotlin/org/decentwallet/wallet/android/IdentityCbor.kt:17-26 | Succeeds exactly on the encodings of values within nesting, item and size limits and returns that value, so no two byte strings decode to the same value. |
| CborDecoder.RoundTrip | platforms/android-wallet/src/main/kotlin/org/decentwallet/wallet/android/IdentityCbor.kt:192-202 | For every value: decoding its encoding gives the value back if and only if the value is within the decoder's limits, counted the decoder's way. |
| CborProofs.ValueInverse | platforms/android-wallet/src/main/kotlin/org/decentwallet/wallet/android/IdentityCbor.kt:204-251 | Parser after printer, for every value, any bytes behind it and any depth and item count already used up, with the exact budget under which it succeeds. |
| CborProofs.DecodeAfterEncode | platforms/android-wallet/src/main/kotlin/org/decentwallet/wallet/android/IdentityCbor.kt:188-276 | The whole grammar inverts the whole printer, for any limits up to 64-bit lengths. |
| CborProofs.EncInjective | platforms/android-wallet/src/main/kotlin/org/decentwallet/wallet/android/IdentityCbor.kt:59-184 | No two values share an encoding, bignums and key order included. |
| CborStandard.HeadIsStandard | platforms/android-wallet/src/main/kotlin/org/decentwallet/wallet/android/IdentityCbor.kt:138-165 | A written head is the one RFC 8949 prescribes: major type and additional information in the initial byte, then the shortest big-endian argument, digit by digit. |
| CborStandard.EncIsStandard | platforms/android-wallet/src/main/kotlin/org/decentwallet/wallet/android/IdentityCbor.kt:59-184 | For every value, its bytes by kind: 0xf4, 0xf5 and 0xf6, integers by sign, tags 2 and 3 over the magnitude's digits, prefixed strings, items in order, and entries in length-first key order. |
| TextStandard.LexLessMeans | platforms/android-wallet/src/main/kotlin/org/decentwallet/wallet/android/IdentityCbor.kt:177-184 | The byte order is decided by the first byte in which two strings differ; a proper prefix comes first. |
| TextStandard.Utf8Exactly | platforms/android-wallet/src/main/kotlin/org/decentwallet/wallet/android/IdentityCbor.kt:278-290 | The text check accepts exactly the UTF-8 encodings of sequences of Unicode scalar values. |
| KotlinHistory.ParseSignerSet | platforms/android-wallet/src/main/kotlin/org/decentwallet/wallet/android/IdentityStateHistory.kt:273-297 | The loop accepts exactly three well-formed entries with ids in strict byte order and all keys different. |
| KotlinHistory.ParseProofs | platforms/android-wallet/src/main/kotlin/org/decentwallet/wallet/android/IdentityStateHistory.kt:299-333 | The loop accepts exactly up to three well-formed proofs in strict id order, an absent id first. |
| KotlinHistory.VerifyThresholdProofs | platforms/android-wallet/src/main/kotlin/org/decentwallet/wallet/android/IdentityStateHistory.kt:440-459 | True exactly when every proof verifies under its signer's key and at least the threshold of different signers are among them. |
| KotlinHistory.ParseEnvelope | platforms/android-wallet/src/main/kotlin/org/decentwallet/wallet/android/IdentityStateHistory.kt:169-190 | Reads exactly the legacy and version-1 envelopes of this owner, checking a legacy envelope's own signature. |
| KotlinHistory.VerifyCandidate | platforms/android-wallet/src/main/kotlin/org/decentwallet/wallet/android/IdentityStateHistory.kt:335-438 | Accepts exactly the transitions the five operation rules allow over the previous state, and gives that next state. |
| KotlinHistory.FollowPredecessors | platforms/android-wallet/src/main/kotlin/org/decentwallet/wallet/android/IdentityStateHistory.kt:105-136 | The loop collects exactly the chain from the head to its anchor, with the repeated-hash, lookup and byte limits. |
| KotlinHistory.ResolveHead | platforms/android-wallet/src/main/kotlin/org/decentwallet/wallet/android/IdentityStateHistory.kt:96-148 | Resolving by the two loops is the specification: walk, then replay oldest first, then report the head with its predecessors. |
| PythonHistory.ValidateSigners | src/decent_wallet/identity.py:1085-1112 | Checking entries one by one and comparing with the sorted list accepts exactly the strictly ordered lists without repeated ids or keys. |
| PythonHistory.ValidateAuthorization | src/decent_wallet/identity.py:1076-1122 | Reads exactly the authorizations with known operation, sound signer list and a threshold it can meet. |
| PythonHistory.ValidateProofList | src/decent_wallet/identity.py:1363-1390 | Accepts exactly the proof lists in strict id order without repeats. |
| PythonHistory.VerifyProofs | src/decent_wallet/identity.py:1321-1332 | Counts the different signers when every proof verifies, and fails otherwise. |
| PythonHistory.DecodeSignedUpdate | src/decent_wallet/identity.py:1125-1141 | Decodes exactly the three- and four-field updates with an empty payload. |
| PythonHistory.ParseIdentityEnvelope | src/decent_wallet/identity.py:1179-1360 | Parsing an envelope step by step over a previous state is the specification: same acceptances, same state. |
| PythonHistory.CollectHistory | src/decent_wallet/identity.py:1644-1676 | The walk ends within 1024 lookups, for every lookup function, with exactly the specified chain. |
| PythonHistory.ParseStateWithHistory | src/decent_wallet/identity.py:1637-1683 | Walking and then re-parsing oldest first is the specification of reading a state. |
| PythonHistory.ParsePreviousStateChain | src/decent_wallet/identity.py:258-279 | A draft without a previous envelope has no previous state, one with a history and no envelope is refused, and any other history is the replay of its envelopes. |
| ReadingAgreement.KotlinReadIsPython | platforms/android-wallet/src/main/kotlin/org/decentwallet/wallet/android/IdentityStateHistory.kt:169-333 | Whatever Kotlin reads from an envelope with a threshold of one to three, Python reads as the same content. |
| ReadingAgreement.PythonReadIsKotlin | src/decent_wallet/identity.py:1185-1217 | Whatever Python reads within Kotlin's size, signer and proof limits, Kotlin reads as the same content: its nesting and item limits are never what refuses an envelope. |
| VerifierAgreement.ProofsFew | src/decent_wallet/identity.py:1321-1332 | Verified proofs by listed signers are never more than the signers, and their ids fit Kotlin's limit. |
| VerifierAgreement.TransitionsAgree | platforms/android-wallet/src/main/kotlin/org/decentwallet/wallet/android/IdentityStateHistory.kt:335-438 | Over matching governed states the Kotlin and the Python transition rules accept the same content, for all five operations and legacy envelopes. |
| VerifierAgreement.RepeatIsCollision | platforms/android-wallet/src/main/kotlin/org/decentwallet/wallet/android/IdentityStateHistory.kt:110-114 | On a chain that replays, the repeated-hash check fires if and only if two different updates of the chain have the same hash, so it never rejects a sound chain. |
| VerifierAgreement.BudgetBounds | platforms/android-wallet/src/main/kotlin/org/decentwallet/wallet/android/IdentityStateHistory.kt:150-156 | A chain within Kotlin's budget has at most four mebibytes in all and at most one per envelope. |
| VerifierAgreement.VerifiersAgree | platforms/android-wallet/src/main/kotlin/org/decentwallet/wallet/android/IdentityStateHistory.kt:96-156 | For every owner, head and lookup function: Kotlin accepts if and only if Python accepts, the chain fits Kotlin's byte budget and no two of its updates collide; then owner key, sequence, hash, generation, threshold, signers and predecessor list are the same. |
| ChainInvariants.GovernedKept | src/decent_wallet/identity.py:1218-1360 | Acceptance over a governed state gives a governed state: no signers at all, or exactly three of whom two must sign. |
| ChainInvariants.AcceptedStep | src/decent_wallet/identity.py:1230-1343 | One accepted step raises the sequence by one, never lowers the generation, changes the owner key only by operation 5 and an existing signer set only by operation 3, raises the generation exactly by operation 3, and always with two valid signatures of the previous set, or the old owner key's where there is none. |
| ChainInvariants.QuorumIsTwo | src/decent_wallet/identity.py:1321-1332 | A verified quorum of two is two proofs in the names of different listed signers, each verifying under that signer's key. |
| ChainInvariants.GenesisMeans | src/decent_wallet/identity.py:1218-1229 | An accepted version-1 anchor has no previous state, number and generation one, the zero hash and a two-of-three set that signed it. |
| ChainInvariants.ChainInvariant | src/decent_wallet/identity.py:1218-1360 | Every accepted chain: the head is governed, its sequence is the anchor's plus the number of predecessors, its predecessor list is the chain, and every step keeps the rules above. |
| ChainInvariants.ReadStateInvariant | src/decent_wallet/identity.py:1625-1683 | The chain invariant holds of every state read through any lookup function, with at most 1024 predecessors. |
| ChainInvariants.WalkEqualsCarried | src/decent_wallet/identity.py:1697-1707 | A draft made from a state that was read re-parses its carried history to that same state. |
| IdentityEncoding.AuthorizationInverse | src/decent_wallet/identity.py:1076-1122 | Reading a built authorization gives it back, for every buildable one. |
| IdentityEncoding.ReadBuilt | src/decent_wallet/identity.py:1144-1160 | Reading an envelope built from its content gives that content back, legacy and version 1. |
| IdentityEncoding.BuiltRead | src/decent_wallet/identity.py:1185-1217 | Every envelope that reads is exactly the one its content builds: reading and building are inverse. |
| IdentityEncoding.WireLayout | src/decent_wallet/identity.py:1076-1122 | Which key of which map holds what, for signers, proofs and authorizations. |
| IdentityEncoding.EnvelopeLayout | src/decent_wallet/identity.py:1144-1160 | Which key of which map holds what, for updates and envelopes, legacy and version 1. |
| ChainExtension.ExtendedState | src/decent_wallet/identity.py:1637-1683 | An accepted step put in front of an accepted state is itself read back, unless the 1024 lookups are used up. |
| ChainExtension.ResolvesOver | platforms/android-wallet/src/main/kotlin/org/decentwallet/wallet/android/IdentityStateHistory.kt:96-148 | Kotlin resolves a new envelope over a resolved head if and only if the transition rule allows it, lookups and bytes are not used up and no two updates collide; the resulting state is the rule's. |
| KotlinBuilders.CreateVersionedDraft | platforms/android-wallet/src/main/kotlin/org/decentwallet/wallet/android/IdentityRotation.kt:210-295 | Returns a draft exactly when the state has signers, the keys match and differ, the update encodes and the pending seed proves possession; the draft carries the state's governance on. |
| KotlinBuilders.CheckProofs | platforms/android-wallet/src/main/kotlin/org/decentwallet/wallet/android/IdentityRotation.kt:144-168 | The loop passes exactly when all signers are different and every proof verifies under its signer's key. |
| KotlinBuilders.FinalizeWithProofs | platforms/android-wallet/src/main/kotlin/org/decentwallet/wallet/android/IdentityRotation.kt:129-195 | Returns the envelope with the proofs sorted exactly when they are by enough different signers, all verify and it encodes. |
| KotlinBuilders.SortedProofs | platforms/android-wallet/src/main/kotlin/org/decentwallet/wallet/android/IdentityRotation.kt:134-143 | Sorting proofs by different signers gives strict id order and keeps the quorum. |
| KotlinBuilders.VersionedBuilderMeetsVerifier | platforms/android-wallet/src/main/kotlin/org/decentwallet/wallet/android/IdentityRotation.kt:129-195 | Whenever draft and finalize return, resolve accepts the envelope over the verified predecessor if and only if lookups and byte budget allow it and no two updates collide; it resolves to the drafted keys, hash and sequence. |
| KotlinBuilders.DraftExactly | platforms/android-wallet/src/main/kotlin/org/decentwallet/wallet/android/IdentityRotation.kt:210-240 | Over a governed state a draft is made exactly for the verified owner, by its current key, to another key. |
| KotlinBuilders.FinalizeIsExact | platforms/android-wallet/src/main/kotlin/org/decentwallet/wallet/android/IdentityRotation.kt:129-195 | Over a draft of a state, proofs pass finalize if and only if no signer is named twice and the verifier's transition rule accepts them, sorted. |
| LegacyRotation.ParseLegacyPredecessor | platforms/android-wallet/src/main/kotlin/org/decentwallet/wallet/android/IdentityRotation.kt:398-436 | Reads exactly the two-field envelopes whose own signature verifies, for whatever owner they name. |
| LegacyRotation.LegacyParsersAgree | platforms/android-wallet/src/main/kotlin/org/decentwallet/wallet/android/IdentityRotation.kt:398-436 | The builder's legacy parser and the verifier's accept the same envelopes for an owner and read the same key, sequence and hash. |
| LegacyRotation.CreateLegacyDraft | platforms/android-wallet/src/main/kotlin/org/decentwallet/wallet/android/IdentityRotation.kt:320-396 | Returns the envelope exactly when predecessor, keys and three successor signers are sound, possession is proved and it encodes. |
| LegacyRotation.SuccessorsSorted | platforms/android-wallet/src/main/kotlin/org/decentwallet/wallet/android/IdentityRotation.kt:532-557 | Three signers with different ids and keys sort into a well-formed list that still holds the new owner key. |
| LegacyRotation.LegacyBuilderMeetsVerifier | platforms/android-wallet/src/main/kotlin/org/decentwallet/wallet/android/IdentityRotation.kt:320-396 | Whenever the legacy builder returns, resolve accepts its envelope over the legacy one, given that the active seed signs for the active key, if and only if the two updates do not collide. |
| LegacyRotation.VerifyLegacyCandidate | platforms/android-wallet/src/main/kotlin/org/decentwallet/wallet/android/IdentityRotation.kt:438-530 | The stand-alone candidate check accepts exactly its specified candidates. |
| LegacyRotation.CandidateReads | platforms/android-wallet/src/main/kotlin/org/decentwallet/wallet/android/IdentityRotation.kt:445-503 | The candidate check and the verifier read the same candidates with the same content. |
| LegacyRotation.LegacyExactly | platforms/android-wallet/src/main/kotlin/org/decentwallet/wallet/android/IdentityRotation.kt:438-530 | What the stand-alone check accepts, by the content the verifier reads: a rotation the intent names, signed by the predecessor; it reports that update's hash. |
| LegacyRotation.VerifiedExactly | platforms/android-wallet/src/main/kotlin/org/decentwallet/wallet/android/AndroidIdentityAdapter.kt:690-761 | What the check through resolve accepts over a legacy predecessor: the same content when its hash does not repeat, a rotation for two keys and an upgrade for one. |
| LegacyRotation.LegacyCheckAgrees | platforms/android-wallet/src/main/kotlin/org/decentwallet/wallet/android/IdentityRotation.kt:438-530 | Over a legacy predecessor, for every intent and candidate: the two checks give the same answer if and only if the candidate is not one of those that part them, told by its hash, operation and signature; with two keys they agree whenever its hash is not the predecessor's, and otherwise resolve refuses. |
| LegacyRotation.OneKeyParts | platforms/android-wallet/src/main/kotlin/org/decentwallet/wallet/android/IdentityRotation.kt:506-515 | For an intent naming one key twice, the operation read decides: the stand-alone check accepts only operation 5, which resolve refuses, and resolve only operation 4, which the stand-alone check refuses. |
| AtomicFiles.WalletFile.Replace | platforms/android-wallet/src/main/kotlin/org/decentwallet/wallet/android/AtomicWalletFiles.kt:143-183 | Normal return means the new bytes, rejected or failed means nothing changed, unknown means the original or the new bytes; a stale expected original changes nothing; and it returns normally exactly when no file operation fails. |
| AtomicFiles.WalletFile.Restore | platforms/android-wallet/src/main/kotlin/org/decentwallet/wallet/android/AtomicWalletFiles.kt:215-235 | True only when the original is seen in place again; otherwise the file is the original or as it was. |
| AtomicFiles.PlainFile.AtomicWrite | src/decent_wallet/container.py:584-604 | The Python writer: normal return means the new bytes, an ordinary failure the previous ones or no file, unknown one of the two. |
| AtomicFiles.PlainFile.RestorePrevious | src/decent_wallet/container.py:537-581 | Reports restored only when the previous file, or its absence, is seen in place again. |
| WalletSessions.PublicationToken.ClaimLatch | platforms/android-wallet/src/main/kotlin/org/decentwallet/wallet/android/AndroidIdentityAdapter.kt:273-283 | Succeeds once per publication. |
| WalletSessions.PublicationToken.AttachPermit | platforms/android-wallet/src/main/kotlin/org/decentwallet/wallet/android/AndroidIdentityAdapter.kt:285-292 | Attaches one permit, and only one made for this very publication. |
| WalletSessions.PublicationToken.BeginDispatch | platforms/android-wallet/src/main/kotlin/org/decentwallet/wallet/android/AndroidIdentityAdapter.kt:294-296 | Succeeds once, and only for the attached permit, told by identity. |
| WalletSessions.DispatchOwnerKeyRotation | platforms/android-wallet/src/main/kotlin/org/decentwallet/wallet/android/AndroidIdentityAdapter.kt:509-618 | Runs exactly when the permit is this publication's own and unspent; what it sends, and the report it acts on, are the conditional PUT's; hands out a rejection exactly when the dispatch ended in one. |
| WalletSessions.RunDispatch | platforms/android-wallet/src/main/kotlin/org/decentwallet/wallet/android/AndroidIdentityAdapter.kt:518-618 | The dispatch of a spent permit: its answer follows from the report of the conditional PUT for this owner, envelope, predecessor hash and deadline, and it sends nothing unless that PUT is reached. |
| WalletSessions.WalletSession.PersistPayloadCandidate | platforms/android-wallet/src/main/kotlin/org/decentwallet/wallet/android/AndroidWallet.kt:698-737 | The session follows the storage outcome: moved when done, locked when rejected or unknown, unchanged when failed. |
| WalletSessions.WalletSession.PrepareSigningKeyRotation | platforms/android-wallet/src/main/kotlin/org/decentwallet/wallet/android/AndroidWallet.kt:284-328 | Writes nothing while an intent is latched or a pending key exists; otherwise one write that adds the pending pair. |
| WalletSessions.WalletSession.CancelSigningKeyRotation | platforms/android-wallet/src/main/kotlin/org/decentwallet/wallet/android/AndroidWallet.kt:330-368 | One write that drops the pending pair, never while an intent is latched. |
| WalletSessions.WalletSession.BindDispatchEnvironment | platforms/android-wallet/src/main/kotlin/org/decentwallet/wallet/android/AndroidWallet.kt:455-476 | One write that adds an environment to an intent without one. |
| WalletSessions.WalletSession.LatchDispatchIntent | platforms/android-wallet/src/main/kotlin/org/decentwallet/wallet/android/AndroidWallet.kt:478-556 | Claims the publication, attaches the permit, writes the intent, and returns the permit exactly when that write is done. |
| WalletSessions.WalletSession.ResolveDispatchRejection | platforms/android-wallet/src/main/kotlin/org/decentwallet/wallet/android/AndroidWallet.kt:558-590 | One write that drops the intent, only with a rejection of the very permit this session latched. |
| WalletSessions.WalletSession.FinalizeSigningKeyRotation | platforms/android-wallet/src/main/kotlin/org/decentwallet/wallet/android/AndroidWallet.kt:592-653 | One write that makes the pending pair active and drops the intent, only with a confirmation of that intent. |
| SessionRefinement.WriteIsProtocolWrite | platforms/android-wallet/src/main/kotlin/org/decentwallet/wallet/android/AndroidWallet.kt:698-737 | Whatever a session object writes, in every storage outcome, is one write of the protocol over which the whole-run theorems are stated. |
| SessionRefinement.PlainCallIsProtocolStep | platforms/android-wallet/src/main/kotlin/org/decentwallet/wallet/android/AndroidWallet.kt:284-476 | A prepare, cancel or bind call of a session object, refused ones included, is the protocol's write step with the same change: session and disk end up equal and nothing else moves. |
| SessionRefinement.LatchIsProtocolLatch | platforms/android-wallet/src/main/kotlin/org/decentwallet/wallet/android/AndroidWallet.kt:478-556 | A latch call is the protocol's latch step: session, disk and the token's claimed and issued flags end up equal. |
| SessionRefinement.DispatchIsProtocolRun | platforms/android-wallet/src/main/kotlin/org/decentwallet/wallet/android/AndroidIdentityAdapter.kt:509-618 | A dispatch by objects is the protocol run begin, one step for each PUT really sent, end; the report allowed at the end follows from the transport's contract. |
| SessionRefinement.ResolveIsProtocolResolve | platforms/android-wallet/src/main/kotlin/org/decentwallet/wallet/android/AndroidWallet.kt:558-590 | Clearing by a rejection object is the protocol's resolve step, with the rejection used up in both or in neither. |
| SessionRefinement.FinalizeIsProtocolFinalize | platforms/android-wallet/src/main/kotlin/org/decentwallet/wallet/android/AndroidWallet.kt:592-653 | Promotion by a confirmation in hand is the protocol's finalize step. |
| RotationAdapter.VerifyCandidateAgainstCurrent | platforms/android-wallet/src/main/kotlin/org/decentwallet/wallet/android/AndroidIdentityAdapter.kt:690-761 | Accepts exactly a candidate with the intent's hash that resolves over the expected current state to the intent's keys, hash and sequence. |
| RotationAdapter.PreparePublication | platforms/android-wallet/src/main/kotlin/org/decentwallet/wallet/android/AndroidIdentityAdapter.kt:393-507 | Returns a publication exactly when the candidate verifies before and again after consent to the same state. |
| RotationAdapter.PublishedExactly | platforms/android-wallet/src/main/kotlin/org/decentwallet/wallet/android/AndroidIdentityAdapter.kt:393-507 | A publication is made if and only if the user approved, the nonce was new, consent had not expired, the environment matched at every look and the candidate verified to one state before and after consent; it is of that intent, envelope and deadline. |
| RotationAdapter.ConfirmObservedCandidate | platforms/android-wallet/src/main/kotlin/org/decentwallet/wallet/android/AndroidIdentityAdapter.kt:641-688 | Confirms exactly a remote envelope with the latched hash whose chain resolves to the intent's keys, hash and sequence. |
| RotationAdapter.ConfirmRotation | platforms/android-wallet/src/main/kotlin/org/decentwallet/wallet/android/AndroidIdentityAdapter.kt:620-639 | Confirms only from a fresh remote read with the environment matching throughout. |
| RotationAdapter.PrewriteFailure | platforms/android-wallet/src/main/kotlin/org/decentwallet/wallet/android/AndroidIdentityAdapter.kt:763-809 | A dispatch given up before writing ends in a rejection only if it may be cleared and the remote read does not show the candidate. |
| RotationAdapter.BeforePut | platforms/android-wallet/src/main/kotlin/org/decentwallet/wallet/android/AndroidIdentityAdapter.kt:518-573 | The checks in front of the PUT, in order: it is reached exactly when they all pass, and otherwise the result is the one DispatchExactly tells. |
| RotationAdapter.AfterPut | platforms/android-wallet/src/main/kotlin/org/decentwallet/wallet/android/AndroidIdentityAdapter.kt:584-612 | What each report of the PUT leads to. |
| RotationAdapter.DispatchExactly | platforms/android-wallet/src/main/kotlin/org/decentwallet/wallet/android/AndroidIdentityAdapter.kt:518-618 | Whatever happened before, a dispatch is confirmed if and only if the read-back confirms the intent, rejected if and only if consent ran out and the read-back showed another envelope, and unknown otherwise. |
| RotationAdapter.ConfirmedExactly | platforms/android-wallet/src/main/kotlin/org/decentwallet/wallet/android/AndroidIdentityAdapter.kt:620-688 | A read-back confirms if and only if it worked in the right environment throughout and showed the latched envelope, resolving to the intent's keys, hash and number; the hash confirmed is that of its update. |
| RotationAdapter.RejectionMeansUnsent | platforms/android-wallet/src/main/kotlin/org/decentwallet/wallet/android/AndroidIdentityAdapter.kt:562-597 | Over every run of answers a rejection is made only if the PUT was not reached or reported expiry, and no status but confirmed, unknown or expired is ever returned. |
| RotationAdapter.ConfirmationIsObserved | platforms/android-wallet/src/main/kotlin/org/decentwallet/wallet/android/AndroidIdentityAdapter.kt:599-618 | Over every run of answers a confirmation rests on a remote envelope that was read and verified. |
| RotationAdapter.ConfirmedIsRotation | platforms/android-wallet/src/main/kotlin/org/decentwallet/wallet/android/AndroidIdentityAdapter.kt:641-688 | A confirmed rotation between different keys is the latched envelope, resolves to an anchor, and its operation is 5: derived, since no other operation changes the owner key; the hash returned is its update's. |
| KeyRetention.UnlatchedWrite | platforms/android-wallet/src/main/kotlin/org/decentwallet/wallet/android/AndroidWallet.kt:284-476 | Prepare, cancel and bind, with every storage outcome, keep the protocol invariant: they never touch an intent that was sent. |
| KeyRetention.LatchStep | platforms/android-wallet/src/main/kotlin/org/decentwallet/wallet/android/AndroidWallet.kt:478-556 | Latching, with every storage outcome including unknown, keeps the invariant: at most one live permit, and its intent and both seeds on disk. |
| KeyRetention.ResolveStep | platforms/android-wallet/src/main/kotlin/org/decentwallet/wallet/android/AndroidWallet.kt:558-590 | Clearing by rejection keeps the invariant: the only permit whose intent leaves the disk is one whose PUT was never sent. |
| KeyRetention.FinalizeStep | platforms/android-wallet/src/main/kotlin/org/decentwallet/wallet/android/AndroidWallet.kt:592-653 | Promotion keeps the invariant in every storage outcome. |
| KeyRetention.NextKeeps | platforms/android-wallet/src/main/kotlin/org/decentwallet/wallet/android/AndroidWallet.kt:284-653 | Every step of the protocol keeps the invariant. |
| KeyRetention.KeyRetention | platforms/android-wallet/src/main/kotlin/org/decentwallet/wallet/android/AndroidWallet.kt:330-653 | From any container, over every run of any number of sessions, any loss or delay of PUTs and every storage outcome, with reports as the conditional PUT makes them: an intent whose PUT was ever sent is promoted, or still latched on disk with both its seeds. |
| KeyRetention.PromotedNotLatchedAgain | platforms/android-wallet/src/main/kotlin/org/decentwallet/wallet/android/AndroidWallet.kt:592-653 | Promotion is recorded by intent; from the step that promotes an intent between two keys, no equal intent is on disk again until another key is promoted. |
| TokenRetention.StepKeeps | platforms/android-wallet/src/main/kotlin/org/decentwallet/wallet/android/AndroidWallet.kt:284-653 | Every step keeps the invariant told by token, if its write uses a new nonce: at most one token is owed, its intent is latched with both seeds, and no session that still has the bytes on disk holds a promoted token's permit. |
| TokenRetention.TokenRetained | platforms/android-wallet/src/main/kotlin/org/decentwallet/wallet/android/AndroidWallet.kt:330-653 | Over every run in which no nonce is used twice, each token whose PUT was sent was itself promoted, or is still latched on disk with both seeds; at most one is still owed. |
| KeyRetention.OnlyFinalizePromotes | platforms/android-wallet/src/main/kotlin/org/decentwallet/wallet/android/AndroidWallet.kt:592-653 | The active key on disk changes only by a finalize with a confirmation in hand for the latched intent. |
| KeyRetention.RunObserved | platforms/android-wallet/src/main/kotlin/org/decentwallet/wallet/android/AndroidIdentityAdapter.kt:620-688 | Every confirmation in hand was made by a remote read earlier in the run. |
| KeyRetention.PromotionSound | platforms/android-wallet/src/main/kotlin/org/decentwallet/wallet/android/AndroidWallet.kt:592-653 | In every run the active key changes only after an earlier step read a remote envelope with exactly the latched hash and verified its whole chain; when the public key changes, that envelope is operation 5 to the successor key. |
| RotationHistory.SentWasConsented | platforms/android-wallet/src/main/kotlin/org/decentwallet/wallet/android/AndroidIdentityAdapter.kt:393-507 | Over every run, a token whose PUT was sent was published by an earlier step with the user's approval of that intent and envelope, a new nonce and two verifications, and latched after it before consent expired; only that envelope was sent. |
| RotationHistory.ClearedWasUnsent | platforms/android-wallet/src/main/kotlin/org/decentwallet/wallet/android/AndroidIdentityAdapter.kt:763-809 | Over every run, a token whose intent was cleared ended in a dispatch that sent nothing, after consent ran out, with a read-back that showed another envelope. |
| RotationHistory.ShownIsNeverCleared | platforms/android-wallet/src/main/kotlin/org/decentwallet/wallet/android/AndroidIdentityAdapter.kt:784-797 | A token whose ending read-back showed the intent's own envelope is not cleared in any further run. |
| RotationHistory.StepChanges | platforms/android-wallet/src/main/kotlin/org/decentwallet/wallet/android/AndroidWallet.kt:284-653 | Every step leaves the stored payload alone or changes exactly what it is for, under its own conditions, and never the password. |
| RotationHistory.RestStays | platforms/android-wallet/src/main/kotlin/org/decentwallet/wallet/android/AndroidWallet.kt:284-653 | Over every run the rest of the stored payload and the password stay as they were. |
| RotationHistory.OpeningExactly | platforms/android-wallet/src/main/kotlin/org/decentwallet/wallet/android/AndroidWallet.kt:125-140 | A container opens exactly under its own password and current version, to what is on disk and without a permit. |
| RotationHistory.MigratedOpens | platforms/android-wallet/src/main/kotlin/org/decentwallet/wallet/android/AndroidWallet.kt:101-123 | A migrated container opens under the same password to the same payload. |
| RotationHistory.WriteTells | platforms/android-wallet/src/main/kotlin/org/decentwallet/wallet/android/AndroidWallet.kt:698-737 | After a write a session still has what is on disk or is locked; a stale one is locked unless the write failed untried. |
| RotationProgress.RotationCompletes | platforms/android-wallet/src/main/kotlin/org/decentwallet/wallet/android/AndroidWallet.kt:284-653 | From every world in which a session has an unlatched file, undisturbed prepare, publish, latch, confirm and finalize make the prepared pair the active one and leave the rest. |
| RotationProgress.ExpiredIsCleared | platforms/android-wallet/src/main/kotlin/org/decentwallet/wallet/android/AndroidWallet.kt:558-590 | And one whose consent runs out unsent, with another envelope on the registry, is cleared back to the prepared payload. |
| Transport.GetEnvelopeByHash | platforms/android-wallet/src/main/kotlin/org/decentwallet/wallet/android/AndroidDirectDhtIdentityTransport.kt:114-136 | The first value any peer gives; absent only if every peer answered with a miss. |
| Transport.CheckPreconditions | platforms/android-wallet/src/main/kotlin/org/decentwallet/wallet/android/AndroidDirectDhtIdentityTransport.kt:163-201 | Passes exactly when two verified reads show the expected state around a candidate that moves the key over it; reports a failed precondition exactly when the first check not to hold was refuted, and ambiguity when it went unanswered. |
| Transport.PutIfCurrent | platforms/android-wallet/src/main/kotlin/org/decentwallet/wallet/android/AndroidDirectDhtIdentityTransport.kt:147-241 | What is sent is the candidate, once to each of the first peers in order, after two verified reads; how many are reached, and exactly when the report is a failed precondition, expiry or an acknowledgement. |
| Transport.SendToPeers | platforms/android-wallet/src/main/kotlin/org/decentwallet/wallet/android/AndroidDirectDhtIdentityTransport.kt:203-227 | The loop over the peers: a peer is reached exactly when it is in time and all before it acknowledged; expiry is reported exactly when none was. |
| Transport.ReadbackIsWritten | platforms/android-wallet/src/main/kotlin/org/decentwallet/wallet/android/AndroidDirectDhtIdentityTransport.kt:58-59 | The registry peers in order and then the read-back peer, and no others, are sent the candidate. |
| Transport.EachPeerOnce | platforms/android-wallet/src/main/kotlin/org/decentwallet/wallet/android/AndroidDirectDhtIdentityTransport.kt:58-59 | No peer is sent two PUTs by one call, and none other bytes. |
| Transport.SentIsReported | platforms/android-wallet/src/main/kotlin/org/decentwallet/wallet/android/AndroidDirectDhtIdentityTransport.kt:203-241 | Once anything was sent the report is acknowledged or ambiguous: never failed precondition, never expired. |
| PythonDrafts.CarriedIsPrevious | src/decent_wallet/identity.py:258-279 | Every state parsed from a carried history is governed and of this owner, whether or not the history is linked. |
| PythonDrafts.ProofsExistExactly | src/decent_wallet/identity.py:1426-1504 | For every update, state and verification function: some proof list makes the verifier accept a version-1 update if and only if the draft gate passes it and the keys its operation needs can sign it. |
| PythonDrafts.GateIsExact | src/decent_wallet/identity.py:1426-1504 | Where the listed signers and the old owner key can sign this update, the draft gate passes exactly the version-1 updates that some proof list makes the verifier accept. |
| PythonDrafts.DraftKeepsGovernance | src/decent_wallet/identity.py:1426-1504 | A draft over a state takes the next number, moves the key exactly as operation 5, is authorized wherever there are signers, and replaces them only as operation 3. |
| PythonBundles.MergeCommutes | src/decent_wallet/identity.py:502-509 | Merging two valid bundles gives the same bundle, or the same refusal, either way round, and the result is valid. |
| PythonBundles.MergeAllIs | src/decent_wallet/identity.py:502-509 | Merging a list succeeds exactly on one draft with no signer twice, and gives all the proofs in order. |
| PythonBundles.MergeAnyOrder | src/decent_wallet/identity.py:502-509 | Merging any list of bundles in any two orders gives the same result. |
| PythonBundles.CollectProofs | src/decent_wallet/identity.py:593-622 | The loop passes exactly when every proof is by its authorised key, and counts the signers. |
| PythonBundles.FinalizeBundle | src/decent_wallet/identity.py:552-635 | The checks of finalize accept exactly the specified bundles and build that content. |
| PythonBundles.FinalizeNeverRejects | src/decent_wallet/identity.py:636-644 | For every valid draft and bundle that passes finalize's own checks, the closing re-parse accepts. |
| PythonBundles.FinalizeExactly | src/decent_wallet/identity.py:552-644 | For every valid draft and bundle with a proof, finalize's own checks pass if and only if every proof claims the key the verifier looks up and the verifier accepts the envelope. |
| PythonBundles.SubmitPublishesLegacy | src/decent_wallet/identity.py:2373-2626 | Over every state read from the registry, submission publishes if and only if the update is legacy, not a draft and signed by the unnamed owner key over no signers; what it publishes is the two-field envelope. |
| PythonBundles.SubmissionIsGated | src/decent_wallet/identity.py:2373-2626 | Over every governed state an authorized submission goes ahead if and only if the draft gate passes the update and the verifier would count the signer; a rotation also needs its draft. |
| LatchRegistry.RotationLatches.Register | src/decent_wallet/identity.py:729-746 | Registers a binding, or one that only adds an environment to an unready one; refuses every other replacement. |
| LatchRegistry.RegisteredExactly | src/decent_wallet/identity.py:729-746 | A binding is registered if and only if the owner has none, the same one, or an unready one without the environment it adds; readiness is never lost. |
| LatchRegistry.RotationLatches.Clear | src/decent_wallet/identity.py:748-758 | Removes exactly the binding named. |
| LatchRegistry.ReadyStays | src/decent_wallet/identity.py:729-758 | Over every run of calls a dispatch-ready binding stays as it is until it is cleared. |
| LatchRegistry.OwnerStays | src/decent_wallet/identity.py:729-758 | Over every run of calls an owner stays registered until one of its bindings is cleared. |
| WriteGate.NextKeeps | src/decent_wallet/identity.py:1898-1911 | Every step of every thread and session keeps the lock, registry and write invariant. |
| WriteGate.NoPutWhileLatched | src/decent_wallet/identity.py:2668-2675 | In every interleaving of threads, sessions and their writes, no ordinary PUT is under way between a latch write that reported success, or a confirmation, and its clearing. |
| WriteGate.MarkSucceeds | src/decent_wallet/container.py:1240-1255 | Marking a stored latch never fails: the owner lock is held from the check to the mark. |
| WriteGate.GateOpenExactly | src/decent_wallet/identity.py:2668-2675 | In every run, over every starting file and any open sessions: over a latched file an ordinary PUT can start if and only if the latch was in the file at start, or some write left it there while none stood or before a clearing finished, and neither a successful latch write nor a confirmation came after. |
| WriteGate.GateHoldsInOrder | src/decent_wallet/identity.py:2668-2675 | From an unlatched file, with one session at a time on one adapter and no latch write whose effect stays while its report is unknown, no ordinary PUT starts or runs while the file is latched. |
| WriteGate.GateStaysOpen | src/decent_wallet/identity.py:2217-2227 | After a silent latch the gate is open over every further run until a latch write reports success or a confirmation registers an intent. |
| WriteGate.LatchStaysUnguarded | src/decent_wallet/container.py:1447-1452 | Where every open session carries a latch, a silent latch also stays in the file over every further run on this adapter until a confirmation. |
| WriteGate.RestartIsUnguarded | src/decent_wallet/identity.py:1605-1605 | A fresh adapter over a latched file lets an ordinary PUT start. |
| WriteGate.PutBackIsUnguarded | src/decent_wallet/container.py:1436-1455 | A second session opened while the latch stood writes it back after the first cleared it, and an ordinary PUT can then start. |
| WriteGate.RollbackIsUnguarded | src/decent_wallet/container.py:584-601 | A write that read the latched file before the clearing and fails after it puts the latch back, and an ordinary PUT can then start. |
| WriteGate.OtherAdapterIsUnguarded | src/decent_wallet/identity.py:1600-1605 | A latch through another adapter is not in this one's registry, and an ordinary PUT can then start. |
| WriteGate.UnknownLatchIsUnguarded | src/decent_wallet/container.py:1503-1508 | A latch write that takes effect but reports an unknown outcome is not registered, and an ordinary PUT can then start. |
| PythonWallet.InstallInverse | src/decent_wallet/container.py:966-1007 | Installing what a session stores gives the session back if and only if its keys and intent are consistent. |
| PythonWallet.InstallExact | src/decent_wallet/container.py:966-1007 | Whatever installs is consistent and stores back to exactly what was read. |
| PythonWallet.OpensToItsKeys | src/decent_wallet/container.py:966-1007 | A container that opens has the public keys of its seeds, two different ones, and an intent between just those. |
| PythonWallet.NewContentInstalls | src/decent_wallet/container.py:839-861 | A new wallet, with or without a signing key, opens. |
| PythonWallet.OperationChanges | src/decent_wallet/container.py:1062-1455 | Every operation on a consistent session goes ahead exactly when the stored content allows it, and changes exactly the keys, seeds, intent or payload it names. |
| PythonWallet.AppliedConsistent | src/decent_wallet/container.py:1076-1455 | Every rotation step and update keeps keys and intent consistent. |
| PythonWallet.BuildsNewSession | src/decent_wallet/container.py:1562-1613 | For every operation on a consistent session: the envelope assembled from the candidate payload, the old secret tables and that operation's overrides holds exactly what the new session stores. |
| PythonWallet.NextReopens | src/decent_wallet/container.py:1562-1613 | Every write of an assembled envelope, done or rolled back, keeps the file opening to the session. |
| PythonWallet.AlwaysReopens | src/decent_wallet/container.py:1189-1508 | From create over every run of prepare, latch, bind, finalize, resolve, cancel, update and password change: the file unlocks under the last password, passes validation and yields exactly the session. |
| PythonWallet.FileHoldsChanges | src/decent_wallet/container.py:1062-1508 | From create over every run: the file opens under the last password set and no other, to the created content changed by exactly the operations that were allowed and done, in order. |
| PythonWallet.Wallet.Operate | src/decent_wallet/container.py:1189-1455 | One operation on the wallet object, sealing what the envelope builder assembles, is one step of the model; unknown locks it with the old or the new file in place. |
| PythonWallet.Wallet.ChangePassword | src/decent_wallet/container.py:1470-1501 | Rewraps the data key and carries the sealed payload over; the file then opens under the new password. |
| PythonWallet.OpenWallet | src/decent_wallet/container.py:863-881 | Opens exactly the containers that fit the read limit, unlock and pass validation; one that reopens gives the session back. |
| CreateContention.OneWinner | platforms/android-wallet/src/main/kotlin/org/decentwallet/wallet/android/AtomicWalletFiles.kt:86-122 | Under any interleaving, failed sync or crash at most one contender succeeds, and the file is then its own. |
| CreateContention.DeletesOnlyOwn | platforms/android-wallet/src/main/kotlin/org/decentwallet/wallet/android/AtomicWalletFiles.kt:246-260 | A file removed from the path was installed by the contender that removes it. |
| CreateContention.WinnerStays | platforms/android-wallet/src/main/kotlin/org/decentwallet/wallet/android/AtomicWalletFiles.kt:100-110 | Once a contender has succeeded its bytes stay through every later step of the others. |
| CreateContention.LoneCreates | platforms/android-wallet/src/main/kotlin/org/decentwallet/wallet/android/AtomicWalletFiles.kt:86-122 | Over a free path and lock an undisturbed contender succeeds with its own bytes in place. |
| ReplayJournal.Journal.Consume | platforms/android-wallet/src/main/kotlin/org/decentwallet/wallet/android/FileAndroidIdentityReplayNonceStore.kt:43-94 | The scan and append are the specification, byte for byte, however far the append gets. |
| ReplayJournal.ScanEncoded | platforms/android-wallet/src/main/kotlin/org/decentwallet/wallet/android/FileAndroidIdentityReplayNonceStore.kt:60-79 | Scanning whole records finds a digest exactly when it is among them. |
| ReplayJournal.ConsumeExactly | platforms/android-wallet/src/main/kotlin/org/decentwallet/wallet/android/FileAndroidIdentityReplayNonceStore.kt:43-94 | Over whole records: used if and only if the digest is among them, accepted if and only if it is not, there is room and its record is written and synced; and what is left in the file. |
| ReplayJournal.CrashKeeps | platforms/android-wallet/src/main/kotlin/org/decentwallet/wallet/android/FileAndroidIdentityReplayNonceStore.kt:80-94 | A crash that loses any part of what was never synced leaves whole records and perhaps a torn one, with every accepted digest among them. |
| ReplayJournal.NeverAcceptedTwice | platforms/android-wallet/src/main/kotlin/org/decentwallet/wallet/android/FileAndroidIdentityReplayNonceStore.kt:28-94 | Over every run with appends that get any distance, failing syncs and crashes that lose any unsynced part at any later time, no digest is accepted twice and at most a million ever are. |
| ReplayJournal.TornStaysClosed | platforms/android-wallet/src/main/kotlin/org/decentwallet/wallet/android/FileAndroidIdentityReplayNonceStore.kt:54-57 | Once a torn record ends the journal, every later consume until a crash fails and changes nothing. |
| SignerCapabilities.SignerCapability.SignIdentityUpdate | src/decent_wallet/signer.py:220-240 | A call on a live capability spends it whether it signs or not; a spent or expired one never signs. |
| SignerCapabilities.SignerCapability.IsActive | src/decent_wallet/signer.py:213-218 | Reports active exactly before the deadline, and invalidates at it. |
| SignerCapabilities.OneSignatureNoneLatched | src/decent_wallet/container.py:1240-1249 | In every interleaving each capability yields at most one signature, and while the session is latched none is active or signing and no step produces one. |
| SignerCapabilities.IssuedCanSign | src/decent_wallet/container.py:1020-1045 | A capability is issued exactly to an open, unlatched session that is not latching, and can then sign once. |
| CborWriter.ByteSink.WriteString | platforms/android-wallet/src/main/kotlin/org/decentwallet/wallet/android/IdentityCbor.kt:64-73 | Appends the head and the bytes of a byte or text string. |
| CborWriter.ByteSink.WriteItems | platforms/android-wallet/src/main/kotlin/org/decentwallet/wallet/android/IdentityCbor.kt:76-80 | Appends the encodings of the items in order, one nesting level down. |
| CborWriter.ByteSink.WriteEntries | platforms/android-wallet/src/main/kotlin/org/decentwallet/wallet/android/IdentityCbor.kt:92-98 | Appends each encoded key with its value, in the order of the sorted entries. |
| CborWriter.EncodeKeys | platforms/android-wallet/src/main/kotlin/org/decentwallet/wallet/android/IdentityCbor.kt:83-86 | Pairs every key of the map with its own encoding, each once. |
| CborDecoder.Decoder.ReadBytes | platforms/android-wallet/src/main/kotlin/org/decentwallet/wallet/android/IdentityCbor.kt:273-276 | Takes exactly the next bytes and moves the cursor past them, or fails when there are too few. |
| CborDecoder.Decoder.ReadLength | platforms/android-wallet/src/main/kotlin/org/decentwallet/wallet/android/IdentityCbor.kt:262-266 | Reads an argument that is at most the size limit. |
| CborDecoder.Decoder.ReadString | platforms/android-wallet/src/main/kotlin/org/decentwallet/wallet/android/IdentityCbor.kt:212-213 | Reads a length and exactly that many bytes. |
| KotlinHistory.ParseLegacy | platforms/android-wallet/src/main/kotlin/org/decentwallet/wallet/android/IdentityStateHistory.kt:192-224 | Reads exactly a legacy envelope of this owner whose own signature verifies. |
| KotlinHistory.ParseVersionOne | platforms/android-wallet/src/main/kotlin/org/decentwallet/wallet/android/IdentityStateHistory.kt:226-271 | Reads exactly a version-1 envelope of this owner with a sound authorization and proof list. |
| KotlinHistory.VerifyUpdate | platforms/android-wallet/src/main/kotlin/org/decentwallet/wallet/android/IdentityStateHistory.kt:368-378 | Operation 2: same key and governance, and a quorum of the previous signers. |
| KotlinHistory.VerifyReplace | platforms/android-wallet/src/main/kotlin/org/decentwallet/wallet/android/IdentityStateHistory.kt:379-390 | Operation 3: a later generation, another signer set, and a quorum of the previous one. |
| KotlinHistory.VerifyRotation | platforms/android-wallet/src/main/kotlin/org/decentwallet/wallet/android/IdentityStateHistory.kt:409-433 | Operation 5: another key, by the predecessor key over a legacy state and by a quorum otherwise. |
| PythonHistory.ReadParts | src/decent_wallet/identity.py:1185-1217 | Reads exactly the content of this owner's legacy and version-1 envelopes. |
| PythonHistory.ReplayEnvelopes | src/decent_wallet/identity.py:1677-1683 | Parsing oldest first, each over the state before it, is the replay; one failure fails it. |
| LegacyRotation.ReadCandidateUpdate | platforms/android-wallet/src/main/kotlin/org/decentwallet/wallet/android/IdentityRotation.kt:457-503 | Reads exactly a first-rotation update with three sound signers that include the new key. |
| WalletSessions.WalletSession.Lock | platforms/android-wallet/src/main/kotlin/org/decentwallet/wallet/android/AndroidWallet.kt:675-686 | Forgets container, data key, payload and permit. |
| RotationAdapter.ReportAfterWrite | platforms/android-wallet/src/main/kotlin/org/decentwallet/wallet/android/AndroidIdentityAdapter.kt:607-612 | After a write the result is confirmed exactly when the read-back confirms, and unknown otherwise. |
| Transport.ReadCurrentHash | platforms/android-wallet/src/main/kotlin/org/decentwallet/wallet/android/AndroidDirectDhtIdentityTransport.kt:243-250 | The state hash of a current envelope that resolves. |
| SignerCapabilities.SignerCapability.Invalidate | src/decent_wallet/signer.py:245-263 | Leaves the capability inactive and its key gone. |
| PythonWallet.Wallet.PersistEnvelope | src/decent_wallet/container.py:1503-1508 | Writes the container; an unknown outcome locks the wallet. |

## Left out

- The internals of Ed25519, SHA-256, Argon2id, XChaCha20-Poly1305 and CRC32.
- The CBOR and JSON libraries of the Python side: loading is the inverse of the same canonical
  encoding. Values outside the shared language (floats, text keys, other tags) count as unread,
  since every shape check refuses them. The typed JSON payload codecs are not modelled.
- Which exception is thrown: every refusal of a verifier or builder is one failure, so an unsupported
  version is not told from an invalid envelope.
- The writer's check for repeated map keys, which no map value can reach.
- Wiping of secret bytes, weak references, unlock delays and inactivity timers.
- The libp2p client, the registry transport wrapper, the command-line and LAN host applications.
- Copies of one container on several devices, several processes replacing one file, and several
  wallet files of one owner on one adapter.
- Disks that return other bytes than were written: a read may fail, but what it returns is true.
- Wallet-login proof requests and the serialised forms of drafts and bundles.
- RotationAdapter.PreparePublication: the consent text, the syntax checks on its context and the nonce digest are not modelled, only whether consent and nonce were accepted.
- WalletSessions.WalletSession.BindDispatchEnvironment: the environment's own syntax check is part of the approval input.
- WalletSessions.WalletSession.LatchDispatchIntent: a stored intent that does not parse is not modelled; the source refuses every call on it.
- PythonWallet.Wallet.Operate: the checks a confirmation or rejection must pass before finalize and resolve are those of the rotation protocol and not repeated; the intent they name is the input.
- PythonWallet.AlwaysReopens: one open wallet object for the file; what a second one does to the latch is in the write gate's runs, and to the rest of the payload is not modelled.
- WriteGate.RollbackIsUnguarded: the file identity check that keeps a rollback from undoing another writer's bytes is not modelled; the runs allow such a rollback too, and this one needs none.
- TokenRetention.TokenRetained: told for runs in which no sealing nonce repeats, since a repeated one can make old container bytes current again; `KeyRetention.KeyRetention` needs no such condition.
- SignerCapabilities.SignerCapability.SignIdentityUpdate: which update bytes a capability agrees to sign is an input.
- CreateContention.OneWinner: contenders only create; a session replacing the winner's file later is the replace model.
