# SecureChat in Dafny

A model of the parts of SecureChat whose correctness spans several functions or whole runs, with
proofs. `dafny verify dfyconfig.toml` checks everything.

| module | what it models |
|---|---|
| `NumberTheory`, `Bytes`, `Base64`, `Base64Layout`, `Oprf` | the RSA oblivious pseudo-random function behind private contact discovery: hash to the group, blind, evaluate, unblind, encode |
| `Chunking` | splitting of large peer-to-peer messages and reassembly from chunks in any order, duplicated and interleaved |
| `CallRegistry`, `Proximity` | the CallKit integration: four dictionaries, asynchronous completions, answer callbacks, and the proximity switch |
| `MessageQueue` | the offline queue: stable priorities, retry chains, counters |
| `Keychain`, `KeyStores`, `StoreRuns`, `SessionKeys`, `SignedRotation`, `Decimal` | four key stores over one keychain with failing writes and deletes, session keys, signed prekey rotation |
| `MegolmJson` | the hand-built JSON result of a group decryption and its buffers |
| `Contacts`, `PhoneNumbers` | deduplication, hash lookup, batched discovery, number normalisation |

Objects that update their fields are classes; each of their methods is tied to a function on values
(`View() == Spec(old(View()), …)`), and the laws over whole runs are proved about those functions, with
a run being a sequence of events. The functions themselves are pinned by laws that do not use them: bytes and
characters by position, states by a table of what every event does, switches and chains by positions in the run,
constants by their values. What the environment decides is a parameter of the event or method:
SHA-256 (any function to 32 bytes), whether a keychain delete, add or load succeeds, the audio route,
the outcome of a system request, new UUIDs and task identifiers (only assumed new), the enumeration
order of dictionaries, and the directory server (answers each hash on its own).

Where a property does not hold as one might expect, the code is kept and the exact condition is proved:

- A message that makes a single chunk is not emitted when it arrives; the sender's size guard is what
  makes reassembly complete (`Chunking.GuardIsExact`).
- The queue counters balance only without late attempts; a reconnect can deliver one message twice
  (`MessageQueue.Conservation`, `MessageQueue.DoubleDelivery`). The discipline that
  avoids this, no reconnect while a chain lives and no removal of a message in flight, is exact: whatever breaks it
  can be driven to a wrong count by the attempts alone (`MessageQueue.DisciplineIsExact`).
- Writing an equal identity key again can lose the pin when the add fails after the delete
  (`StoreRuns.PinKeptExactly`, `StoreRuns.LostPinIsReplaced`), and an identity whose load fails counts as trusted
  (`KeyStores.IdentityStore.IsTrusted`).
- A cleanup during which a load throws drops a stored session from the index (`StoreRuns.StepKeepsListed`).
- Splitting a session key drops empty pieces, so operations by name go wrong in two ways. They miss the sessions of
  a name that is not of one piece: the empty name, names of colons only, names with an inner colon. And they take
  sessions of another name for their own when that name is of one piece and continues the given one with a colon:
  with `a:5` and `a::5` stored, deleting the sessions of `a` removes one session and returns 2, and with `a::5` alone
  it removes none and returns 1. Exactly these two cases are in the way (`SessionKeys.SelectionIsExact`,
  `SessionKeys.DeletesExactlyOwn`, `SessionKeys.CountIsExact`, `SessionKeys.ListsExactlyOwn`,
  `SessionKeys.AliasCountedTwice`); no session of another name is ever removed.
- An answer or start performed for an unregistered UUID leaves an entry in the proximity controller
  (`CallRegistry.StrayProximityExactly`); a stray answer counts as a video call and keeps the switch off
  (`CallRegistry.StrayRun`).
- Contacts none of which has a number make the single request fail with an error, where the batched form reports an
  empty result; this and unanswered requests are the only ways in which the two differ
  (`Contacts.BatchedEqualsSingle`).

## Model

| member | source | states |
|---|---|---|
| `Oprf.UnblindedEqualsDirect` | flutter_securechat/server_hardened/tools/crypto-audit/generate_oprf_kat.py:58-62 | for every RSA key (n = p·q, e·d ≡ 1 mod lcm(p-1, q-1)), every point and every factor coprime to n, blind, evaluate and unblind gives exactly point^d mod n: the script's assertion, for all inputs |
| `Oprf.KeyEquation` | flutter_securechat/server_hardened/tools/crypto-audit/generate_oprf_kat.py:58-61 | raising to e·d is the identity on every residue modulo n, coprime to n or not |
| `Oprf.EvaluationInverse` | flutter_securechat/server_hardened/tools/crypto-audit/generate_oprf_kat.py:59-61 | evaluation with d and with e are inverse bijections of the residues below n |
| `Oprf.ExactlyOneFactor` | flutter_securechat/server_hardened/tools/crypto-audit/generate_oprf_kat.py:58-58 | for each unit point and each blinded unit exactly one unit factor leads from one to the other, so a blinded value says nothing about the point |
| `Oprf.TokenInputIdentifiesPoint` | flutter_securechat/server_hardened/tools/crypto-audit/generate_oprf_kat.py:58-63 | two runs reach the same fixed-width bytes before the token hash if and only if they started from the same point, whatever the factors |
| `Oprf.FieldRoundTrip` | flutter_securechat/server_hardened/tools/crypto-audit/generate_oprf_kat.py:80-86 | every published field fits the modulus width, and a text is the field of a number if and only if it decodes to that many bytes and these spell the number |
| `Oprf.Expand` | flutter_securechat/server_hardened/tools/crypto-audit/generate_oprf_kat.py:32-36 | succeeds exactly while the counter has 32 bits; the result is the digests of seed and counter 0, 1, 2, … in order, as few as make the asked number of bytes |
| `Oprf.Attempt` | flutter_securechat/server_hardened/tools/crypto-audit/generate_oprf_kat.py:29-37 | one attempt yields the value in [1, n-1] that is, less one, congruent modulo n-1 to the number spelled by the expansion of the seed; the seed is the hash of the label and its NUL, the characters of the phone hash and the attempt in four bytes |
| `Oprf.SeedsDistinct` | flutter_securechat/server_hardened/tools/crypto-audit/generate_oprf_kat.py:29-31 | with a hash without collisions two attempts share a seed if and only if phone hash and attempt are the same |
| `Oprf.YieldsOne` | flutter_securechat/server_hardened/tools/crypto-audit/generate_oprf_kat.py:27-37 | a phone hash and an attempt determine the value |
| `Oprf.FullDomainPoint` | flutter_securechat/server_hardened/tools/crypto-audit/generate_oprf_kat.py:27-40 | the result is what the first attempt not refused yields, in [2, n-1] and coprime to n, out of 256; each error is returned if and only if its case holds, all stated on the bytes that are hashed |
| `Oprf.FindFactor` | flutter_securechat/server_hardened/tools/crypto-audit/generate_oprf_kat.py:53-56 | the search ends, because n-1 is coprime to n, at the least coprime factor from the start value on |
| `Oprf.DeriveVector` | flutter_securechat/server_hardened/tools/crypto-audit/generate_oprf_kat.py:47-63 | no vector exactly when the phone hash is not ASCII, the counter leaves 32 bits or all 256 attempts are refused; otherwise the point is the first one yielded, the factor the first coprime one from the seed value on, the generator's own assertion cannot fail, and the token is the hash of its label and the unblinded number in fixed width |
| `Oprf.DomainsApart` | flutter_securechat/server_hardened/tools/crypto-audit/generate_oprf_kat.py:15-16 | the input of a token hash is never the input of a seed hash |
| `Oprf.PackIsExact` | flutter_securechat/server_hardened/tools/crypto-audit/generate_oprf_kat.py:30-35 | a four-byte counter holds exactly the values below 2^32 |
| `NumberTheory.ModInverse` | flutter_securechat/server_hardened/tools/crypto-audit/generate_oprf_kat.py:60-60 | the inverse of a coprime factor: below n, and 1 when multiplied back |
| `NumberTheory.GcdIsGreatestCommonDivisor` | flutter_securechat/server_hardened/tools/crypto-audit/generate_oprf_kat.py:38-38 | the gcd divides both numbers and every common divisor divides it |
| `NumberTheory.Fermat` | flutter_securechat/server_hardened/tools/crypto-audit/generate_oprf_kat.py:58-62 | Fermat's little theorem, by permuting the units of a prime modulus |
| `NumberTheory.LcmIsLeast` | flutter_securechat/server_hardened/tools/crypto-audit/generate_oprf_kat.py:58-62 | the least common multiple of the key condition divides every common multiple |
| `Bytes.WidthBijective` | flutter_securechat/server_hardened/tools/crypto-audit/generate_oprf_kat.py:23-24 | fixed-width encoding fails on exactly the values that need more room and is a bijection otherwise |
| `Bytes.BigEndianAt` | flutter_securechat/server_hardened/tools/crypto-audit/generate_oprf_kat.py:23-24 | byte i of a fixed-width number is its digit of weight 256^(size-1-i) |
| `Bytes.FromBigEndianAt` | flutter_securechat/server_hardened/tools/crypto-audit/generate_oprf_kat.py:37-37 | a number read from bytes has exactly those bytes as base-256 digits, the first one weighing most |
| `Bytes.ByteLengthIsLeastWidth` | flutter_securechat/server_hardened/tools/crypto-audit/generate_oprf_kat.py:49-49 | the modulus width is the smallest that holds the modulus |
| `Base64.UrlRoundTrip` | flutter_securechat/server_hardened/tools/crypto-audit/generate_oprf_kat.py:19-20 | a text decodes to bs if and only if it is the unpadded URL-safe encoding of bs |
| `Base64Layout.EncodingAt` | flutter_securechat/server_hardened/tools/crypto-audit/generate_oprf_kat.py:19-20 | each character is the tabulated one for its six bits of its group of three bytes, the length is just enough, and the standard form is filled up with `=` |
| `Chunking.SendChunkedMessage` | ios/SecureChat/SecureChatNetwork/Sources/P2PMessageTransport.swift:214-236 | chunk i carries the identifier, i, the number of chunks and bytes 64000·i up to 64000·(i+1) or the end; as few chunks as hold the data |
| `Chunking.SendP2PMessage` | ios/SecureChat/SecureChatNetwork/Sources/P2PMessageTransport.swift:203-208 | a message is chunked exactly when it is over 64000 bytes, and then makes at least two chunks |
| `Chunking.CeilingOfRoundedQuotient` | ios/SecureChat/SecureChatNetwork/Sources/P2PMessageTransport.swift:216-216 | below 2^53 bytes the ceiling of the rounded double quotient is the exact number of chunks |
| `Chunking.Receiver.HandleMessageChunk` | ios/SecureChat/SecureChatNetwork/Sources/P2PMessageTransport.swift:276-311 | the effect of any chunk, genuine or not: other entries untouched, a first chunk only stored, a later one completing the message exactly when as many indices are held as it says there are |
| `Chunking.AssembleAt` | ios/SecureChat/SecureChatNetwork/Sources/P2PMessageTransport.swift:284-296 | the emitted bytes are the chunks in index order, each behind the ones before it, missing ones leaving no gap |
| `Chunking.KeyInjective` | ios/SecureChat/SecureChatNetwork/Sources/P2PMessageTransport.swift:277-277 | with fixed-length identifiers the concatenated table key determines peer and message |
| `Chunking.StepOwn` | ios/SecureChat/SecureChatNetwork/Sources/P2PMessageTransport.swift:276-310 | a genuine chunk adds its index; when that completes the set, the sent bytes are emitted and the entry is dropped |
| `Chunking.StepOther` | ios/SecureChat/SecureChatNetwork/Sources/P2PMessageTransport.swift:277-299 | a chunk of one message leaves every other message's progress alone |
| `Chunking.RunAccounts` | ios/SecureChat/SecureChatNetwork/Sources/P2PMessageTransport.swift:276-311 | over any stretch of genuine traffic, emissions and held chunks of a message are paid for by deliveries, and nothing is lost before the next emission |
| `Chunking.OnlySentBytesAreEmitted` | ios/SecureChat/SecureChatNetwork/Sources/P2PMessageTransport.swift:284-296 | whatever the order, duplication and interleaving, only sent bytes are emitted, under their own peer and identifier |
| `Chunking.EmittedAtMostLeastDelivered` | ios/SecureChat/SecureChatNetwork/Sources/P2PMessageTransport.swift:279-299 | a message is emitted at most as often as each of its chunks was delivered |
| `Chunking.EmittedOnceAllArrive` | ios/SecureChat/SecureChatNetwork/Sources/P2PMessageTransport.swift:282-299 | from every reachable state, traffic in which every chunk arrives emits the message |
| `Chunking.GuardIsExact` | ios/SecureChat/SecureChatNetwork/Sources/P2PMessageTransport.swift:204-208 | one in-order delivery of all chunks of a non-empty message yields exactly that message if and only if the sender's size guard holds; a single-chunk message is not emitted, because the first-chunk branch (lines 300-309) never looks for completion |
| `CallRegistry.CallKitIntegration.Remember` | flutter_securechat/ios/Runner/AppDelegate.swift:959-965 | an existing registration is reused, otherwise both dictionaries get the new UUID |
| `CallRegistry.CallKitIntegration.Complete` | flutter_securechat/ios/Runner/AppDelegate.swift:906-908 | a pending answer is taken out and fired; without one nothing happens |
| `CallRegistry.CallKitIntegration.ForgetUuid` | flutter_securechat/ios/Runner/AppDelegate.swift:967-973 | the whole new state after forgetting a UUID |
| `CallRegistry.CallKitIntegration.ReportCall` | flutter_securechat/ios/Runner/AppDelegate.swift:793-834 | registration, video flag and outstanding request of a reported call |
| `CallRegistry.CallKitIntegration.AnswerCall` | flutter_securechat/ios/Runner/AppDelegate.swift:841-855 | an unknown call fires at once; a known one waits under its UUID |
| `CallRegistry.CallKitIntegration.EndCall` | flutter_securechat/ios/Runner/AppDelegate.swift:857-863 | an unknown call succeeds at once; a known one leaves a request |
| `CallRegistry.CallKitIntegration.RunCompletion` | flutter_securechat/ios/Runner/AppDelegate.swift:806-870 | what each completion handler does for each outcome, the unknown-call error of an end counting as success |
| `CallRegistry.CallKitIntegration.ProviderDidReset` | flutter_securechat/ios/Runner/AppDelegate.swift:873-881 | all pending answers are fired, in any enumeration order, and all dictionaries emptied |
| `CallRegistry.CallKitIntegration.OnPerformAnswer` | flutter_securechat/ios/Runner/AppDelegate.swift:883-893 | performing an answer, with and without a configured audio session |
| `CallRegistry.CallKitIntegration.OnPerformEnd` | flutter_securechat/ios/Runner/AppDelegate.swift:910-914 | performing an end reports it for a known call and forgets the UUID |
| `CallRegistry.CallKitIntegration.OnPerformStart` | flutter_securechat/ios/Runner/AppDelegate.swift:923-933 | performing a start, with and without a configured audio session |
| `CallRegistry.ForgetEffect` | flutter_securechat/ios/Runner/AppDelegate.swift:967-973 | forgetting removes the UUID from all dictionaries and touches no other UUID |
| `CallRegistry.ActionsExactly` | flutter_securechat/ios/Runner/AppDelegate.swift:883-933 | the application is told `answer` exactly by an answer performed with audio and `end` exactly by a performed end or a start performed without audio, of registered calls |
| `CallRegistry.FiredExactly` | flutter_securechat/ios/Runner/AppDelegate.swift:806-914 | which callbacks any other event invokes, in which order and with which outcome |
| `CallRegistry.ResetTellsAll` | flutter_securechat/ios/Runner/AppDelegate.swift:873-881 | a reset tells every pending answer, and no other callback, that the call could not be answered |
| `CallRegistry.RegistrationsExactly` | flutter_securechat/ios/Runner/AppDelegate.swift:793-973 | the registrations after any event: made by reports of unknown calls, lost exactly by the events that forget |
| `CallRegistry.AnswersExactly` | flutter_securechat/ios/Runner/AppDelegate.swift:841-973 | the callbacks waiting after any event: entered by answers to known calls, taken out exactly by the events that tell them |
| `CallRegistry.FlagsExactly` | flutter_securechat/ios/Runner/AppDelegate.swift:793-973 | the video flags after any event: set by every report, lost exactly by the events that forget |
| `CallRegistry.RequestsExactly` | flutter_securechat/ios/Runner/AppDelegate.swift:793-870 | the requests outstanding after any event: one per report and per answer or end of a known call, each answered once |
| `CallRegistry.RunInv` | flutter_securechat/ios/Runner/AppDelegate.swift:793-973 | in every reachable state, whatever order completions arrive in, the two dictionaries are mutually inverse, exactly the registered UUIDs have a video flag, only they have pending answers, and every callback has exactly one place |
| `CallRegistry.FiresAtMostOnce` | flutter_securechat/ios/Runner/AppDelegate.swift:906-908 | over a whole run no callback is invoked twice |
| `CallRegistry.CallbackAccounted` | flutter_securechat/ios/Runner/AppDelegate.swift:841-908 | every callback ever passed in has fired, waits under a registered call, is owed by an outstanding request, or was overwritten: exactly one of these |
| `CallRegistry.AnswerSettledWhenForgotten` | flutter_securechat/ios/Runner/AppDelegate.swift:967-973 | once its UUID is no longer registered, an answer callback has fired unless a second answer overwrote it |
| `CallRegistry.AnswerSettledByEvent` | flutter_securechat/ios/Runner/AppDelegate.swift:873-908 | so it has after a performed, failed, timed-out or rejected answer, an end, or a reset, also when the call stays registered |
| `CallRegistry.SuccessOnlyWhenPerformed` | flutter_securechat/ios/Runner/AppDelegate.swift:848-893 | the waiting callback is told of success by exactly the performing of its answer with configured audio; acceptance of the request is not enough |
| `CallRegistry.SuccessWasPerformed` | flutter_securechat/ios/Runner/AppDelegate.swift:848-893 | over whole runs, a callback told of success had its answer performed after it was passed in |
| `CallRegistry.LateCompletionIsHarmless` | flutter_securechat/ios/Runner/AppDelegate.swift:806-870 | a late completion leaves every registration with another UUID untouched, in particular a newer one of the same call id |
| `CallRegistry.StaleCompletionChangesNothing` | flutter_securechat/ios/Runner/AppDelegate.swift:806-870 | for a UUID no longer registered a completion changes none of the four dictionaries |
| `CallRegistry.StrayProximityExactly` | flutter_securechat/ios/Runner/AppDelegate.swift:883-933 | the proximity controller is left with a call the registry does not know exactly when an answer or start is performed for an unregistered UUID with working audio |
| `CallRegistry.NoStrayInRun` | flutter_securechat/ios/Runner/AppDelegate.swift:883-973 | in every run without such an event the controller only ever holds registered calls |
| `CallRegistry.StrayRun` | flutter_securechat/ios/Runner/AppDelegate.swift:806-893 | a reachable stray: a failed report followed by a performed answer leaves a call that counts as video, so the switch stays off under every audio state and route |
| `CallRegistry.SwitchFollowsRegistry` | flutter_securechat/ios/Runner/AppDelegate.swift:702-973 | in every run of the whole registry the switch alternates beginning with true, changes once per change of the condition, and is on if and only if the route seen last is the receiver, audio was activated and not changed since, some voice answer or start was performed and not ended since, and no video one was; which events begin, end and look is spelled out |
| `Proximity.Controller.RefreshOutput` | flutter_securechat/ios/Runner/AppDelegate.swift:734-740 | the switch is set only when the condition differs from its last value |
| `Proximity.Controller.StartCall` | flutter_securechat/ios/Runner/AppDelegate.swift:719-722 | a call is entered and the switch refreshed |
| `Proximity.Controller.EndCall` | flutter_securechat/ios/Runner/AppDelegate.swift:724-727 | a call is removed and the switch refreshed |
| `Proximity.Controller.SetAudio` | flutter_securechat/ios/Runner/AppDelegate.swift:729-732 | the audio state is set and the switch refreshed |
| `Proximity.Controller.ResetAll` | flutter_securechat/ios/Runner/AppDelegate.swift:742-746 | everything is cleared and the switch refreshed |
| `Proximity.OutputsFollowCondition` | flutter_securechat/ios/Runner/AppDelegate.swift:702-747 | over every run the outputs alternate beginning with true, number one per change of the condition, and the last one is true if and only if at the last event the receiver is the route, the last audio change or reset activated audio, some voice start was not ended, replaced or reset since, and no video start is in that state |
| `MessageQueue.PendingQueue.QueueMessage` | ios/SecureChat/SecureChatNetwork/Sources/MessageQueue.swift:68-91 | the message goes in front of the first lower priority, is counted, and is attempted when connected |
| `MessageQueue.PendingQueue.RemoveMessage` | ios/SecureChat/SecureChatNetwork/Sources/MessageQueue.swift:128-155 | all messages with the id leave the list, its retry task is cancelled, and the answer says whether one left |
| `MessageQueue.PendingQueue.UpdateMessageInQueue` | ios/SecureChat/SecureChatNetwork/Sources/MessageQueue.swift:283-292 | the first message with the id is replaced, if there is one |
| `MessageQueue.PendingQueue.HandleMessageSuccess` | ios/SecureChat/SecureChatNetwork/Sources/MessageQueue.swift:249-255 | one more delivered, and the message leaves |
| `MessageQueue.PendingQueue.HandleMessageFailure` | ios/SecureChat/SecureChatNetwork/Sources/MessageQueue.swift:257-310 | the fifth failure counts as failed and takes the message out; the first four update it and schedule a retry after 1, 2, 4 and 8 seconds |
| `MessageQueue.PendingQueue.ClearQueue` | ios/SecureChat/SecureChatNetwork/Sources/MessageQueue.swift:108-123 | the list and the retry tasks are emptied and sleeping tasks cancelled |
| `MessageQueue.CountersExactly` | ios/SecureChat/SecureChatNetwork/Sources/MessageQueue.swift:84-91 | an enqueue counts as queued, a success as delivered, and a failure as failed exactly when the message had failed four times before |
| `MessageQueue.ListExactly` | ios/SecureChat/SecureChatNetwork/Sources/MessageQueue.swift:108-292 | the messages listed after any event, with the retry count raised by a failure |
| `MessageQueue.TasksExactly` | ios/SecureChat/SecureChatNetwork/Sources/MessageQueue.swift:108-310 | the tasks after any event: an enqueue while connected and a reconnect start attempts, a failure before the fifth leaves a waiting retry, and what takes a message out cancels its waiting retry and nothing else |
| `MessageQueue.ServedInOrder` | ios/SecureChat/SecureChatNetwork/Sources/MessageQueue.swift:173-189 | in every interleaving urgent comes before high before normal before low, first come first served within a priority, ids are unique, and the messages are the enqueued ones but for their retry count |
| `MessageQueue.NoResurrection` | ios/SecureChat/SecureChatNetwork/Sources/MessageQueue.swift:257-292 | an id that has left the list never re-enters it |
| `MessageQueue.Conservation` | ios/SecureChat/SecureChatNetwork/Sources/MessageQueue.swift:84-91 | in every run queued + late = delivered + failed + pending + taken out, where late counts attempts that ended after their message had left; so the plain balance holds if and only if there was no late attempt |
| `MessageQueue.DisciplinedConservation` | ios/SecureChat/SecureChatNetwork/Sources/MessageQueue.swift:249-281 | the plain balance holds in every run with one live chain per id in which messages are taken out only while no attempt of theirs is in flight |
| `MessageQueue.DisciplineIsExact` | ios/SecureChat/SecureChatNetwork/Sources/MessageQueue.swift:108-201 | after a run with one live chain per id, an event respects that discipline if and only if the counters balance in every continuation by attempts alone: starting a second chain or taking out a message in flight can always be driven to a wrong count |
| `MessageQueue.DoubleDelivery` | ios/SecureChat/SecureChatNetwork/Sources/MessageQueue.swift:191-201 | without that discipline it fails: a reconnect during the first attempt delivers one queued message twice |
| `MessageQueue.ChainsAreBounded` | ios/SecureChat/SecureChatNetwork/Sources/MessageQueue.swift:294-310 | each attempt chain makes at most five sends, with delays 1, 2, 4, 8 seconds from where it started, so the 30-second cap is never reached |
| `MessageQueue.GivenUpAfterFive` | ios/SecureChat/SecureChatNetwork/Sources/MessageQueue.swift:257-310 | a chain that gives its message up has made exactly the sends from its start to the fifth, with exactly the remaining delays of 1, 2, 4 and 8 seconds |
| `Keychain.KeychainManager.StoreData` | ios/SecureChat/SecureChatCrypto/Sources/KeychainManager.swift:255-271 | throws exactly when the add fails or the delete failed on an existing item; otherwise the tag holds the record; after a throw the tag is empty exactly if the delete succeeded |
| `Keychain.KeychainManager.DeleteData` | ios/SecureChat/SecureChatCrypto/Sources/KeychainManager.swift:142-153 | a delete removes the tag or throws and changes nothing |
| `Keychain.KeychainManager.LoadData` | ios/SecureChat/SecureChatCrypto/Sources/KeychainManager.swift:274-293 | a load finds, misses or throws |
| `Keychain.TagsClashExactly` | ios/SecureChat/SecureChatCrypto/Sources/KeyStores/CryptoIdentityStore.swift:13-17 | all tag families are injective and pairwise disjoint, with exactly two clashes: the peer name `pair` with the local identity key, and a session key `list` with the session index |
| `Keychain.TagsAsWritten` | ios/SecureChat/SecureChatCrypto/Sources/KeyStores/CryptoSessionStore.swift:13-16 | the literal tags of sessions, prekeys and identities |
| `Keychain.OtherTagsAsWritten` | ios/SecureChat/SecureChatCrypto/Sources/KeyStores/CryptoSignedPreKeyStore.swift:12-16 | the literal tags of signed prekeys, registration and master items |
| `Keychain.PutIsTyped` | ios/SecureChat/SecureChatCrypto/Sources/KeychainManager.swift:255-271 | a write by tag is a write to one slot of one store's typed dictionary, with the same outcome |
| `Keychain.DropIsTyped` | ios/SecureChat/SecureChatCrypto/Sources/KeychainManager.swift:142-153 | a delete by tag removes one slot of one store's typed dictionary |
| `KeyStores.SessionStore.Store` | ios/SecureChat/SecureChatCrypto/Sources/KeyStores/CryptoSessionStore.swift:60-73 | record, index and saved list after storing a session, for every failure |
| `KeyStores.SessionStore.Delete` | ios/SecureChat/SecureChatCrypto/Sources/KeyStores/CryptoSessionStore.swift:92-105 | record, index and saved list after deleting a session, for every failure |
| `KeyStores.SessionStore.DeleteEvery` | ios/SecureChat/SecureChatCrypto/Sources/KeyStores/CryptoSessionStore.swift:156-164 | a failing delete stops the loop and keeps the index; otherwise the index is emptied |
| `KeyStores.SessionStore.Scan` | ios/SecureChat/SecureChatCrypto/Sources/KeyStores/CryptoSessionStore.swift:257-273 | the loop keeps exactly the indexed keys whose record loads and counts the others |
| `KeyStores.SessionStore.CleanupOrphanedSessions` | ios/SecureChat/SecureChatCrypto/Sources/KeyStores/CryptoSessionStore.swift:256-281 | the index becomes the loadable keys and the count is the number of keys dropped |
| `KeyStores.PreKeyStore.Store` | ios/SecureChat/SecureChatCrypto/Sources/KeyStores/CryptoPreKeyStore.swift:57-69 | record, index and metadata after storing a prekey, for every failure |
| `KeyStores.PreKeyStore.Remove` | ios/SecureChat/SecureChatCrypto/Sources/KeyStores/CryptoPreKeyStore.swift:83-95 | record, index and metadata after removing a prekey, for every failure |
| `KeyStores.PreKeyStore.GetNextPreKeyId` | ios/SecureChat/SecureChatCrypto/Sources/KeyStores/CryptoPreKeyStore.swift:138-143 | the counter is returned and goes up by one, from 16777214 back to 0 |
| `KeyStores.IdsDistinct` | ios/SecureChat/SecureChatCrypto/Sources/KeyStores/CryptoPreKeyStore.swift:138-143 | the counter hands an id out again exactly after a multiple of 16777215 steps |
| `KeyStores.IdentityStore.Store` | ios/SecureChat/SecureChatCrypto/Sources/KeyStores/CryptoIdentityStore.swift:114-135 | pins on first use, refuses another key, writes an equal key again |
| `KeyStores.IdentityStore.Delete` | ios/SecureChat/SecureChatCrypto/Sources/KeyStores/CryptoIdentityStore.swift:156-159 | deletes the pin or throws |
| `KeyStores.IdentityStore.IsTrusted` | ios/SecureChat/SecureChatCrypto/Sources/KeyStores/CryptoIdentityStore.swift:181-189 | trusted exactly on first use, on an equal pin, or when the load fails |
| `KeyStores.ConstantTimeEquals` | ios/SecureChat/SecureChatCrypto/Sources/KeyStores/CryptoIdentityStore.swift:199-210 | the accumulated comparison is equality |
| `StoreRuns.StepSimulates` | ios/SecureChat/SecureChatCrypto/Sources/KeyStores/CryptoIdentityStore.swift:94-159 | one operation on the shared keychain is one operation of its own store on a private typed dictionary, and none of any other store |
| `StoreRuns.StoresAreIndependent` | ios/SecureChat/SecureChatCrypto/Sources/KeyStores/CryptoIdentityStore.swift:114-159 | after any interleaving with any failures each store is exactly where its own operations alone would have brought a private typed dictionary |
| `StoreRuns.StepKeepsListed` | ios/SecureChat/SecureChatCrypto/Sources/KeyStores/CryptoSessionStore.swift:60-105 | an operation keeps every stored record listed if and only if it is not a cleanup that fails to load a stored session |
| `StoreRuns.RecordsStayListed` | ios/SecureChat/SecureChatCrypto/Sources/KeyStores/CryptoPreKeyStore.swift:57-95 | over whole runs every stored session, prekey and signed prekey is listed in its index, whatever writes and deletes fail |
| `StoreRuns.CleanupIsExact` | ios/SecureChat/SecureChatCrypto/Sources/KeyStores/CryptoSessionStore.swift:256-281 | when no load fails, cleanup makes the index equal to the set of stored sessions, drops exactly the keys without a record, so many as the sizes differ by, and changes nothing but the saved session list |
| `StoreRuns.PinKeptExactly` | ios/SecureChat/SecureChatCrypto/Sources/KeyStores/CryptoIdentityStore.swift:114-159 | a pin survives an operation of any store if and only if the operation is neither its deletion nor a rewrite whose delete succeeds and whose add fails |
| `StoreRuns.PinStays` | ios/SecureChat/SecureChatCrypto/Sources/KeyStores/CryptoIdentityStore.swift:114-159 | over any run a pin is unchanged until such an operation |
| `StoreRuns.LostPinIsReplaced` | ios/SecureChat/SecureChatCrypto/Sources/KeyStores/CryptoIdentityStore.swift:117-130 | after that failed rewrite any other key is accepted |
| `SessionKeys.SessionKeyInjective` | ios/SecureChat/SecureChatCrypto/Sources/KeyStores/CryptoSessionStore.swift:211-213 | the printed session key determines name and device, whatever the name |
| `SessionKeys.SplitSessionKey` | ios/SecureChat/SecureChatCrypto/Sources/KeyStores/CryptoSessionStore.swift:119-121 | splitting a printed key gives the non-empty pieces of its name and the device id, for every name |
| `SessionKeys.SelectedKey` | ios/SecureChat/SecureChatCrypto/Sources/KeyStores/CryptoSessionStore.swift:112-121 | a printed key is selected exactly when its name is of one piece and is the given name or continues it with a colon; the device id read is its own |
| `SessionKeys.SelectionIsExact` | ios/SecureChat/SecureChatCrypto/Sources/KeyStores/CryptoSessionStore.swift:112-121 | for every index of printed keys and every name, exactly the name's own keys are selected if and only if the name is of one piece or has no session, and no session of a one-piece name that continues it with a colon is stored; the device ids are then the own ones |
| `SessionKeys.ColonFreeUnmistakable` | ios/SecureChat/SecureChatCrypto/Sources/KeyStores/CryptoSessionStore.swift:112-121 | with colon-free names that condition holds for every non-empty name |
| `SessionKeys.InnerColonNotSelected` | ios/SecureChat/SecureChatCrypto/Sources/KeyStores/CryptoSessionStore.swift:119-121 | a name with a colon between two pieces selects none of its own keys |
| `SessionKeys.DeleteSelected` | ios/SecureChat/SecureChatCrypto/Sources/KeyStores/CryptoSessionStore.swift:118-126 | the loop body deletes what the key stands for and counts it if the deletion succeeds |
| `SessionKeys.DeleteAllSessions` | ios/SecureChat/SecureChatCrypto/Sources/KeyStores/CryptoSessionStore.swift:111-129 | index, records and count after the loop, for every set of failing deletions |
| `SessionKeys.DeletesExactlyOwn` | ios/SecureChat/SecureChatCrypto/Sources/KeyStores/CryptoSessionStore.swift:111-129 | whatever the names only keys of the given name are deleted; the deletions counted are exactly those of its own sessions, each on its own account, if and only if the name is of one piece or has no session to delete, and no alias stands for a deletable key |
| `SessionKeys.CountIsExact` | ios/SecureChat/SecureChatCrypto/Sources/KeyStores/CryptoSessionStore.swift:111-129 | the number returned is the number of sessions that left the index if and only if no alias was counted, for every name that has a piece |
| `SessionKeys.AliasCountedTwice` | ios/SecureChat/SecureChatCrypto/Sources/KeyStores/CryptoSessionStore.swift:111-129 | for every one-piece name: with a session of the name and one of the name continued by a colon the count is 2 and one session goes; with the second alone the count is 1 and none goes |
| `SessionKeys.GetSubDeviceSessions` | ios/SecureChat/SecureChatCrypto/Sources/KeyStores/CryptoSessionStore.swift:135-151 | the ascending list of the device ids read out of the selected keys |
| `SessionKeys.ListsExactlyOwn` | ios/SecureChat/SecureChatCrypto/Sources/KeyStores/CryptoSessionStore.swift:135-151 | the list is strictly ascending and holds exactly the device ids of the name's sessions under the condition of exact selection, and only then unless the name consists of colons |
| `Decimal.ParseInvertsPrint` | ios/SecureChat/SecureChatCrypto/Sources/KeyStores/CryptoSessionStore.swift:120-121 | parsing a printed 32-bit identifier gives it back |
| `Decimal.ParseExactly` | ios/SecureChat/SecureChatCrypto/Sources/KeyStores/CryptoSessionStore.swift:120-121 | exactly the decimal notations of a number, with leading zeros and a sign at will, are read as it |
| `SignedRotation.SignedPreKeyStore.Store` | ios/SecureChat/SecureChatCrypto/Sources/KeyStores/CryptoSignedPreKeyStore.swift:58-70 | record, index and metadata after storing a signed prekey, for every failure |
| `SignedRotation.SignedPreKeyStore.Remove` | ios/SecureChat/SecureChatCrypto/Sources/KeyStores/CryptoSignedPreKeyStore.swift:84-96 | record, index and metadata after removing a signed prekey, for every failure |
| `SignedRotation.SignedPreKeyStore.UpdateRotationTime` | ios/SecureChat/SecureChatCrypto/Sources/KeyStores/CryptoSignedPreKeyStore.swift:139-142 | the rotation time is set and saved |
| `SignedRotation.SignedPreKeyStore.GetNextSignedPreKeyId` | ios/SecureChat/SecureChatCrypto/Sources/KeyStores/CryptoSignedPreKeyStore.swift:195-202 | one more than every id held, 0 when none is, and a trap exactly at the top of the range |
| `SignedRotation.SignedPreKeyStore.Sorted` | ios/SecureChat/SecureChatCrypto/Sources/KeyStores/CryptoSignedPreKeyStore.swift:169-169 | the ids in ascending order |
| `SignedRotation.OldestInOrder` | ios/SecureChat/SecureChatCrypto/Sources/KeyStores/CryptoSignedPreKeyStore.swift:168-170 | dropping the last five of the sorted ids leaves exactly the ids that at least five others exceed |
| `SignedRotation.SignedPreKeyStore.CleanupOldSignedPreKeys` | ios/SecureChat/SecureChatCrypto/Sources/KeyStores/CryptoSignedPreKeyStore.swift:161-183 | exactly those ids and their records go, except where the deletion fails, the count is their number, and no other record is touched |
| `SignedRotation.RotateSignedPreKey` | ios/SecureChat/SecureChatCrypto/Sources/PreKeyManager.swift:163-207 | each error in its case, and without effect when ids and records agree; a rotation happens exactly when the write of the next id succeeds, and then that id holds the new record, the ids that five others exceed are dropped except where the deletion fails, and every id kept has its earlier record |
| `SignedRotation.InitialState` | ios/SecureChat/SecureChatCrypto/Sources/PreKeyManager.swift:79-100 | initial generation on an empty store leaves the single id 0 with its record |
| `SignedRotation.RotationWindow` | ios/SecureChat/SecureChatCrypto/Sources/PreKeyManager.swift:163-207 | after any k rotations the ids held are exactly max(0, k-4) through k, loading id j gives exactly the record made for rotation j, and the id added last is k, larger than any before |
| `SignedRotation.NewestStayLoadable` | ios/SecureChat/SecureChatCrypto/Sources/PreKeyManager.swift:163-207 | whatever deletions fail during the cleanups, after k rotations the newest five ids are held, loading any id j held gives exactly the record made for rotation j, and the id added last is k |
| `MegolmJson.TextBuffer.Push` | flutter_securechat/native/securechat_crypto/src/megolm.rs:295-300 | a push appends; the buffer moves only when its capacity is exceeded |
| `MegolmJson.BuildJson` | flutter_securechat/native/securechat_crypto/src/megolm.rs:291-302 | the assembled text fills the reserved capacity exactly and the buffer never moves |
| `MegolmJson.RenderHasNoNul` | flutter_securechat/native/securechat_crypto/src/megolm.rs:296-302 | the result never contains a NUL |
| `MegolmJson.ParseRendered` | flutter_securechat/native/securechat_crypto/src/megolm.rs:296-300 | the result parses to exactly its two members |
| `MegolmJson.ResultRoundTrip` | flutter_securechat/native/securechat_crypto/src/megolm.rs:291-302 | for every plaintext and every 32-bit index, parsing and decoding the result gives both back |
| `MegolmJson.ToCString` | flutter_securechat/native/securechat_crypto/src/lib.rs:126-140 | fails exactly on an inner NUL; otherwise terminates the text without moving the buffer |
| `MegolmJson.SecretSurvives` | flutter_securechat/native/securechat_crypto/src/lib.rs:143-147 | an encoded secret always reaches C and decodes to the secret |
| `Base64.RoundTrip` | flutter_securechat/native/securechat_crypto/src/lib.rs:632-632 | a text decodes to bs if and only if it is the padded standard encoding of bs |
| `Contacts.DeduplicateContacts` | ios/SecureChat/SecureChatContacts/Sources/ContactsManager.swift:196-211 | for each number one entry, the earliest contact with the longest name, and nothing else; sorted by name for every strict order of names |
| `Contacts.CreateHashMapping` | ios/SecureChat/SecureChatContacts/Sources/PhoneNumberHasher.swift:73-83 | the hash of every non-empty number maps to the last contact that has it, and nothing else is listed |
| `Contacts.DistinctNumbersAllListed` | ios/SecureChat/SecureChatContacts/Sources/PhoneNumberHasher.swift:73-83 | after deduplication of any address book and without collisions, every contact with a number is found under its hash |
| `Contacts.DiscoverRegisteredUsers` | ios/SecureChat/SecureChatContacts/Sources/ContactDiscoveryService.swift:33-82 | each error exactly in its case; otherwise the contacts found hash by hash |
| `Contacts.ChunkedSpec` | ios/SecureChat/SecureChatContacts/Sources/ContactDiscoveryService.swift:234-240 | chunking loses and reorders nothing, chunks are non-empty and within size, and only the last can be short |
| `Contacts.BatchIsFound` | ios/SecureChat/SecureChatContacts/Sources/ContactDiscoveryService.swift:160-169 | one batch with its restricted table finds what the full table finds for its hashes |
| `Contacts.DiscoverBatched` | ios/SecureChat/SecureChatContacts/Sources/ContactDiscoveryService.swift:147-193 | the loop yields one report per answered batch and then the report of all of them, or ends with the error of the first unanswered request |
| `Contacts.StreamAt` | ios/SecureChat/SecureChatContacts/Sources/ContactDiscoveryService.swift:156-180 | each answered batch is reported with what is found for its slice of the hashes and how many those are, and the stream ends at the first unanswered request |
| `Contacts.StreamIsFound` | ios/SecureChat/SecureChatContacts/Sources/ContactDiscoveryService.swift:156-187 | the last report of a finished stream holds the contacts of all hashes in order, and their numbers |
| `Contacts.BatchedEqualsSingle` | ios/SecureChat/SecureChatContacts/Sources/ContactDiscoveryService.swift:33-193 | for every batch size, honest server and any two enumerations of the table, the batched and the single form report the same multiset of contacts and the same numbers if and only if their requests are answered and there are no contacts or one of them has a number |
| `Contacts.SingleIsComplete` | ios/SecureChat/SecureChatContacts/Sources/ContactDiscoveryService.swift:33-82 | the answered single request succeeds unless there are contacts without any number, and reports an entry for exactly the users the server knows under the hash of a remaining contact, with that contact's name, number and picture |
| `Contacts.DiscoveryIsComplete` | ios/SecureChat/SecureChatContacts/Sources/ContactDiscoveryService.swift:147-225 | the same for batched discovery with any batch size, from the address book on: field by field, and as a multiset |
| `PhoneNumbers.DependsOnDigitsOnly` | ios/SecureChat/SecureChatContacts/Sources/PhoneNumberNormalizer.swift:24-44 | the result depends on nothing but the digits of the input |
| `PhoneNumbers.AcceptedExactly` | ios/SecureChat/SecureChatContacts/Sources/PhoneNumberNormalizer.swift:24-143 | with country code 90 the national and the full Turkish forms are accepted exactly for mobile prefixes 50, 53, 54, 55 and 56, all others exactly with 7 to 15 digits |
| `PhoneNumbers.DisplayLayout` | ios/SecureChat/SecureChatContacts/Sources/PhoneNumberNormalizer.swift:60-71 | a Turkish number is displayed in groups of three, three, two and two digits behind +90, any other with a plus sign |
| `PhoneNumbers.KeptExactly` | ios/SecureChat/SecureChatContacts/Sources/PhoneNumberNormalizer.swift:30-31 | a character is kept exactly when it is one of the digits 0 to 9 |
| `PhoneNumbers.NormalisationIdempotent` | ios/SecureChat/SecureChatContacts/Sources/PhoneNumberNormalizer.swift:24-55 | what normalisation produced it leaves alone, for every country code |
| `PhoneNumbers.NormalisationUndoesDisplay` | ios/SecureChat/SecureChatContacts/Sources/PhoneNumberNormalizer.swift:60-71 | normalising a displayed id gives the id back |
| `PhoneNumbers.TurkishFormsAgree` | ios/SecureChat/SecureChatContacts/Sources/PhoneNumberNormalizer.swift:98-143 | the `5…`, `0…` and `90…` forms of one valid Turkish mobile normalise to the same number |

## Left out

- RSA key generation and DER encoding, the SHA-512 factor seed beyond its value, and JSON printing of the vector file: library calls.
- vodozemac, SignalProtocolKit, CryptoKit and SQLCipher: foreign code; the rest of `lib.rs` and `megolm.rs` wraps it.
- Chunking.Receiver.HandleMessageChunk: JSON decoding of chunks and messages, decryption and delivery receipts are not modelled; an emission is the byte string handed on.
- Chunking.EmittedOnceAllArrive: holds for peers that send through the chunked path with 36-character identifiers; forged chunks are outside it.
- CallRegistry.CallKitIntegration.ReportCall: the call update and handle passed to the system, `setActive`, muting and deallocation are not modelled.
- CallRegistry.RunInv: each handler is one atomic step, and callbacks do not call back into the registry while they run.
- MessageQueue.PendingQueue.QueueMessage: encryption, the signal itself and the published queue size and status are not modelled; each handler is one atomic step, and attempts and retries are separate steps.
- Keychain.KeychainManager.StoreData: the JSON and raw encodings of metadata are represented by the values they encode; the master key and its ciphers are left out.
- KeyStores.SessionStore.Store: the stores are modelled after their initial metadata load.
- StoreRuns.StoresAreIndependent: deleting the local identity key, health reports and bulk removal of prekeys would only add members of the same kinds.
- Prekey batches: consecutive batches share ids by construction, so there is no freshness law; the generation of the first hundred prekeys is left out with them.
- MegolmJson.BuildJson: the erasure of plaintext buffers is not modelled, only that no unerased copy arises from growing a buffer.
- Contacts.DeduplicateContacts: the locale's comparison of names is a parameter.
- Contacts.DiscoverBatched: batch sizes that are not positive, and reading the address book, are not modelled.
- Country code detection, hash statistics, permission handling and the contact change observer: single-branch logic.
- WebRTC, signalling, audio session and user interface code: driven by frameworks, with only easy facts of its own.
