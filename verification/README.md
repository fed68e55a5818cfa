# Verified model of the wallet's trust plane and spend paths

This project models, in Dafny, the parts of the wallet that decide what gets signed:

- **the trust plane** (`keyd/`): the child process that holds the vault. Its proposal pipe, its
  password loop and its autolock watcher share a proposal queue, a hash-chained ledger and the
  unlocked wallet. `TrustPlane` is a transition system that interleaves the three threads at every
  mutex, ledger write and reply; `TrustPlaneSafety` holds the inductive invariant,
  `TrustPlaneTheorems`, `Passphrase`, `LoopAnswers`, `Denials`, `LedgerOnDisk`, `ApproveLines`,
  `Replies` and `Session` what every run keeps and answers;
- **the Bitcoin spend path**: coin selection (`CoinSelect`), the payload the send page builds from it
  and the signer's judgement of that payload (`BtcSpend`), with the key selection both ends use
  (`Identity`) and the signature encoding (`Der`);
- **the vault file**: payload codec (`Vault`), file format and the save / shred / change-password
  protocols over a disk that may crash between any two file operations (`VaultFile`);
- **the send flow** (`SendFlow`, `SendFlowSafety`, `SendReview`, `SendScreen`, `SendPage`): the stages
  of the send page, its jobs, and what reaches the queue; `EndToEnd` runs it and the trust plane side
  by side over one queue, `LostReply` holds a run in which one review is signed twice;
- and what these stand on: `Bytes`, `Text`, `Envelope`, `DerivePath`, `Protocol`, `ProposalQueue`,
  `AuditLog`, `SecretChannel`, `TokenText`, `Utf8`.

Where the source updates fields or buffers, the model has a class or a method with the same loop,
proved equal to a specification function; the promises are lemmas about that function. Cryptography,
transaction skeletons and address codecs are function parameters. What a result needs of them is a
named hypothesis about the very values at hand (`BoxInverse`, `Separates`, `Shared`, `NoneForged`,
`AddressCodec`; `SeparationCanBeMet` and `UnforgedCanBeMet` show the two about secrecy can hold), or
the result names the two texts that would have to hash alike (`TamperEvidence`,
`AppendVerifiesIff`).

Where the code and its comments disagree, the model follows the code:

- `domain/btc/coin_select.cpp:101-102` says the no-change case is settled later; the loop tests
  against the two-output fee only, so it refuses purses that could pay without change
  (`OneOutputFeeIsNotEnough`).
- `keyd/audit.hpp:17` calls events single-line ASCII; `append` also takes an empty event, which
  `verify` then rejects (`AppendVerifiesIff`).
- `keyd/signer.hpp:122-124` allows the native-segwit preset and one or two outputs; the code signs
  under all four Bitcoin presets and does not refuse a plan without outputs (`AcceptedIsReadable`).
- `keyd/signer.cpp:253` adds 4 to a 32-bit length in 32 bits; the check is exact only below
  2^32 - 4 (`LengthCheckExact`).
- `ui/pages/send_page.cpp:659` adds the fee to the lamports in 64 bits; the guard means what it says
  only below 2^64 - 5000 (`SolGuardExact`).

## Model

| member | source | states |
|---|---|---|
| `CoinSelect.BeforeTotal` | domain/btc/coin_select.cpp:88-95 | the comparator is a strict total order: two different coins never tie |
| `CoinSelect.SortedUnique` | domain/btc/coin_select.cpp:88-95 | the sorted list is the same whatever sorting algorithm makes it |
| `CoinSelect.SelectCoins` | domain/btc/coin_select.cpp:81-120 | the uint64 loop computes `Selection`, with its errors |
| `CoinSelect.SelectionOptimal` | domain/btc/coin_select.cpp:81-120 | it fails exactly when no sub-multiset of the coins pays amount and two-output fee at the rate asked, and otherwise uses the fewest coins any such choice could |
| `CoinSelect.SelectionConserves` | domain/btc/coin_select.cpp:103-117 | inputs = amount + fee + change; change is 0 or at least 546; the fee is the two-output fee at the rate asked or overshoots it by at most 545, and not at all when there is change |
| `CoinSelect.HigherRateNeverCheaper` | domain/btc/coin_select.cpp:96-117 | a higher rate never needs fewer coins, and for the same coins never charges less nor returns more |
| `CoinSelect.ZeroRateIsOne` | domain/btc/coin_select.cpp:86-87 | asking for no rate is asking for one, in selecting and in sweeping |
| `CoinSelect.SelectionIgnoresOrder` | domain/btc/coin_select.cpp:88-119 | the result depends on the multiset of coins only |
| `CoinSelect.InputsInOrder` | domain/btc/coin_select.cpp:88-95 | the inputs come falling in value, among equals rising in txid, then in output number |
| `CoinSelect.OneOutputFeeIsNotEnough` | domain/btc/coin_select.cpp:101-105 | a purse that covers amount and one-output fee can still be refused |
| `CoinSelect.DefaultFeeIsForTheSize` | domain/btc/coin_select.cpp:72-79 | at the default weights a selection with change pays for exactly p2wpkh_vsize of its transaction |
| `CoinSelect.SweepCoins` | domain/btc/coin_select.cpp:122-139 | the uint64 loop computes `Sweep`, with its errors |
| `CoinSelect.SweepLeavesMoreThanDust` | domain/btc/coin_select.cpp:122-139 | a sweep goes through exactly when the one-output fee at the rate asked leaves more than 546 satoshi, and then keeps every coin and charges that fee |
| `BtcSpend.BuildPayload` | ui/pages/send_page.cpp:850-892 | the payload is length, skeleton of the reviewed plan, one value per input |
| `BtcSpend.PlanIsWhatWasAsked` | ui/pages/send_page.cpp:851-880 | the plan spends the picked coins, each under the bytes its txid spells, pays the amount to the recipient and the change home |
| `BtcSpend.SignBtcJudge` | keyd/signer.cpp:244-318 | the signer's loops compute `Judge`, error for error |
| `BtcSpend.ReadValues` | keyd/signer.cpp:259-267 | the values are read little-endian into the inputs and summed modulo 2^64 |
| `BtcSpend.Whitelist` | keyd/signer.cpp:297-318 | every output nameable, two outputs only with own change, fee the difference of the sums |
| `BtcSpend.ReviewedFeeIsSigned` | keyd/signer.cpp:244-318 | what is built from a selection for the shown address is accepted, for that very plan and with the reviewed fee |
| `BtcSpend.SelectionFeeIsJudged` | keyd/signer.cpp:244-318 | for whatever key, if the payload of a selection is accepted at all, the judged plan and fee are the selection's |
| `BtcSpend.AcceptedIsReadable` | keyd/signer.cpp:297-318 | any accepted payload: at most two outputs, at most one not to the account, all nameable, inputs = outputs + fee, fee > 0 |
| `BtcSpend.AcceptedExactly` | keyd/signer.cpp:244-318 | below 4 GiB a payload is accepted for a plan and a fee exactly when it is length, skeleton and values of that plan and the plan is acceptable to the key |
| `BtcSpend.LengthCheckExact` | keyd/signer.cpp:251-255 | the length check keeps the reading inside the payload exactly for lengths below 2^32 - 4 |
| `Identity.ShownAddressSigns` | keyd/signer.cpp:271-295 | the address shown for a Bitcoin account is the one that signs |
| `Identity.AddressExactly` | keyd/signer.cpp:440-485 | which identities a wallet has: by derivation along their path, or by its first key under account 0 on the curve of the family |
| `Identity.SignerExactly` | keyd/signer.cpp:271-295 | the Bitcoin signer answers for exactly the identities that are shown, but for the length of an imported key |
| `Der.PushInt` | keyd/signer.cpp:370-381 | the in-place scan for leading zeros emits tag, length, minimal content |
| `Der.DerIsExact` | keyd/signer.cpp:370-389 | a strict reader accepts, for two 32-byte numbers, exactly the bytes that are written; 8 to 72 of them |
| `DerivePath.PathsCollideOnlyAtZero` | keyd/signer.cpp:136-158 | two identities share a path exactly when equal or MetaMask 0 and Ledger Live 0 |
| `DerivePath.PathSaysItsMeaning` | keyd/signer.cpp:136-158 | read as child numbers, a path is exactly purpose, coin type and account in their places |
| `Envelope.ParseReadsExactlyTheCarriers` | keyd/signer.cpp:160-186 | a payload parses to a body exactly when it is one of the body's three encodings |
| `Envelope.EnvelopeInjective` | keyd/signer.cpp:196-204 | the envelope determines preset, account and transaction |
| `Bytes.PutU64le` | keyd/protocol.hpp:100-104 | eight bytes are written in place, the rest of the buffer stays |
| `Bytes.GetU64le` | keyd/protocol.hpp:106-112 | the bitwise or of the shifted bytes is the little-endian number |
| `Bytes.OrOfDisjoint` | keyd/protocol.hpp:106-112 | a number or-ed with one shifted above its bits is their sum |
| `Bytes.NumberOfLittleEndian` | keyd/protocol.hpp:100-112 | reading undoes writing |
| `Bytes.LittleEndianOfNumber` | keyd/protocol.hpp:100-112 | writing undoes reading |
| `ProposalQueue.Queue.Submit` | keyd/proposals.hpp:49-58 | appends a pending proposal under the next id, which was free |
| `ProposalQueue.Queue.StateOf` | keyd/proposals.hpp:60-67 | the scan finds the state of the id, or Unknown |
| `ProposalQueue.Queue.Resolve` | keyd/proposals.hpp:69-79 | succeeds exactly on a pending proposal and changes its state only |
| `ProposalQueue.Queue.ListPending` | keyd/proposals.hpp:81-89 | the pending ids in order of submission |
| `ProposalQueue.Queue.Get` | keyd/proposals.hpp:91-98 | the scan finds the proposal of the id |
| `ProposalQueue.PendingIdsExact` | keyd/proposals.hpp:81-89 | the list is ascending and names exactly the pending proposals |
| `ProposalQueue.StepsRefineTheMap` | keyd/proposals.hpp:49-79 | the scanned list is a map with keys 1 to n: a submission binds the next id, a verdict changes the state of one pending id, nothing else moves |
| `AuditLog.HexIsExact` | keyd/audit.cpp:18-48 | hex decodes to some data exactly when it is its printed form |
| `ApproveLines.RecordSpelled` | keyd/audit.cpp:93-95 | a record is the chain hash in lower-case hex, a space and the event |
| `AuditLog.HexOf` | keyd/audit.cpp:18-27 | the printing loop |
| `AuditLog.FromHex64` | keyd/audit.cpp:29-48 | the decoding loop: success exactly on 64 lower-case digits; on failure the bytes before the first bad pair are overwritten |
| `AuditLog.Verify` | keyd/audit.cpp:108-132 | the line loop counts the records of `Events`, or finds the broken link |
| `AuditLog.Log.LoadTail` | keyd/audit.cpp:70-81 | the chain continues from the last non-empty line, whatever that line is |
| `AuditLog.Log.Append` | keyd/audit.cpp:83-106 | one record at the end, chain moved on; or a reason, the chain unmoved, at most a part of the record written |
| `AuditLog.AppendAddsOneRecord` | keyd/audit.cpp:83-106 | from a verifying newline-terminated ledger an append adds exactly its event and keeps it so |
| `AuditLog.SessionsVerify` | keyd/audit.cpp:70-132 | however appends are split over reopenings, the ledger verifies and holds old events then new |
| `AuditLog.AppendVerifiesIff` | keyd/audit.cpp:83-132 | the exact condition, for any chain the log holds: after a newline an append verifies exactly when the event is not empty and hashes over that chain as over the ledger's own; on a torn file exactly when the last record's text and that text run on with the new record hash alike |
| `AuditLog.TamperEvidence` | keyd/audit.cpp:50-59 | two verifying ledgers of equal count and last hash hold the same events in order, or at a named link their two different link texts hash alike |
| `Protocol.RequestsAreUnderstood` | keyd/client.cpp:94-321 | the child decodes every request frame as the client built it, opcode by opcode |
| `Protocol.OtherFramesExact` | keyd/child.cpp:299-549 | which frames are too short, name no preset or no operation |
| `Protocol.DecodePending` | keyd/client.cpp:178-190 | the client's loop reads back exactly the list the child wrote |
| `Protocol.UiProvenanceIsEarned` | keyd/child.cpp:96-129 | a submission counts as the UI's exactly when it carries the MAC of its payload, as the client's frames do |
| `Protocol.PipeMessagesExact` | keyd/child.cpp:96-147 | submissions and queries on the pipe are exactly the messages that are built so, the UI's with their MAC |
| `TrustPlaneTheorems.SignApproveAudit` | keyd/child.cpp:299-428 | over every interleaving, back at recv: signature replies, approve records and approved proposals agree in number and id by id, each once, over the queue's own bytes |
| `TrustPlaneTheorems.NeverAheadOfTheLedger` | keyd/child.cpp:392-411 | at every point, also after a crash: no reply without record, no record without verdict, at most one apart |
| `TrustPlaneTheorems.ResolveNeverFails` | keyd/child.cpp:392-395 | the resolve whose result is ignored always finds its proposal pending |
| `TrustPlaneTheorems.FetchedIsWhatIsSigned` | keyd/child.cpp:299-305 | what fetch showed under an id is byte for byte what is signed under it |
| `TrustPlaneTheorems.RunEvolves` | keyd/child.cpp:68-86 | between any two states of a run the queue only evolves |
| `TrustPlaneTheorems.PlaneMovesTheQueue` | keyd/child.cpp:130-130 | a step adds one decoded submission, denies from recv, approves after signing, or leaves the queue alone |
| `TrustPlaneTheorems.LoopIsNeverStuck` | keyd/child.cpp:443-455 | the loop can always go on; the proposal behind a listed id is there to be dereferenced |
| `TrustPlaneTheorems.RepliesAnswerRequests` | keyd/child.cpp:260-549 | every request gets one reply of its own kind, in order |
| `TrustPlaneTheorems.MeterBound` | keyd/child.cpp:252-258 | the meter counts failed verifications since the last success; their stalls sum to (N-3)(N-2)/2 up to N = 13 and 55 + 10(N-13) beyond |
| `Passphrase.PassphraseDecides` | keyd/child.cpp:269-325 | a request that spends a passphrase opens the vault exactly once, and its reply is what that opening allows: the wallet that opened signs, for the id asked, or shows its own root |
| `Passphrase.WrongPassphraseIsRefused` | keyd/child.cpp:313-325 | a request whose passphrase does not open the vault is answered with failure, whatever is unlocked |
| `Passphrase.SignedOnlyOpened` | keyd/child.cpp:299-325 | every signature, replied or only recorded, has an opening of the vault to its wallet under an approve of its id |
| `Passphrase.OpeningsDiffer` | keyd/child.cpp:299-325 | different signatures have different openings |
| `LoopAnswers.HolderIsInHand` | keyd/child.cpp:269-298 | the holder is the wallet of the last successful unlock, and empty after a lock, a shutdown, a failed unlock or a lock event |
| `LoopAnswers.StatusTellsTheTruth` | keyd/child.cpp:293-298 | a status reply says whether a wallet is in hand, an address comes with the kind of the one that is |
| `LoopAnswers.PendingListIsTheQueues` | keyd/child.cpp:443-456 | a pending list is exactly what was pending when its request was read, in order, with the queue's provenance |
| `Denials.DenyConfirmAudit` | keyd/child.cpp:429-442 | back at recv, confirmed denials, deny records and denied proposals are the same, id by id, each once |
| `LedgerOnDisk.ApproveLinesAreApprovals` | keyd/child.cpp:404-411 | of all lines the process writes exactly the approve records begin like one |
| `LedgerOnDisk.WritesAreTheLedger` | keyd/child.cpp:130-138 | the appends of a run that succeeded are its ledger, and it is torn exactly when one failed |
| `LedgerOnDisk.WriteEvents` | keyd/audit.cpp:83-106 | events put through the log one after the other leave the file that the writes, failed ones included, add up to |
| `LedgerOnDisk.LedgerCountsSignatures` | keyd/child.cpp:402-411 | while no write failed the file verifies and its new approve lines number the approved proposals; after a failed write it still begins with the verifying ledger up to that write |
| `ApproveLines.LineReads` | keyd/child.cpp:404-411 | id, family, digest and signer can be read off an approve line |
| `ApproveLines.LedgerNamesSignatures` | keyd/child.cpp:402-411 | while no write failed, the approve lines on disk name in order the signatures recorded, back at recv those replied with |
| `Session.RequestsAreTheFramesTaken` | keyd/child.cpp:260-267 | the requests served are the non-empty frames taken, in order |
| `Session.ReplyAnswersItsFrame` | keyd/client.cpp:86-92 | the k-th frame the client receives after the hello is the reply to the k-th it sent, over two wires and however their bytes were cut up |
| `Session.FetchedIsWhatComesBackSigned` | keyd/client.cpp:192-231 | the signature the client gets for an id is over the very bytes its fetch of that id returned |
| `Replies.RepliesAreUnderstood` | keyd/client.cpp:94-321 | each client method makes of a reply frame what the reply says, if it is the reply it asks for, and nothing otherwise |
| `Replies.ReplyOpcodes` | keyd/protocol.hpp:38-50 | the opcode of each reply and of each kind of signature |
| `Session.AcceptedIsLogged` | keyd/child.cpp:130-138 | an id is handed out only for a queued proposal whose submit record is in the ledger |
| `Session.PipeAnswersItsMessages` | keyd/child.cpp:96-147 | every answer of the pipe is the one its message calls for, over the queue as the message found it |
| `SecretChannel.Pipe.WriteAll` | platform/ipc/pipe.cpp:17-28 | partial writes add up to the data, or a prefix of it |
| `SecretChannel.Pipe.ReadAll` | platform/ipc/pipe.cpp:30-40 | partial reads add up to the bytes asked for; or a read failed, or the peer is gone |
| `SecretChannel.Channel.Send` | platform/ipc/secret_channel.cpp:50-62 | one frame, sealed with the next counter, on the wire |
| `SecretChannel.Channel.Recv` | platform/ipc/secret_channel.cpp:64-98 | header once, accepted or refused, then length, ciphertext, authentication, as `Receive` says; or a read failed |
| `SecretChannel.SendMessages` | platform/ipc/secret_channel.cpp:50-62 | any number of sends leave on the wire the beginning of the wire of their messages, all of it when they get through |
| `SecretChannel.ReceiveMessages` | keyd/child.cpp:260-265 | the loop of recv takes what the stream holds, and nothing else when a read fails |
| `SecretChannel.Deliver` | platform/ipc/secret_channel.cpp:28-98 | between two ends sharing a key, what is received is a prefix of what was sent, and all of it without a failure |
| `SecretChannel.PrefixDelivers` | platform/ipc/secret_channel.cpp:50-98 | wherever the stream stops, exactly the completely written frames arrive, in order |
| `SecretChannel.WholeWireDelivers` | platform/ipc/secret_channel.cpp:50-98 | with nothing lost everything sent is received |
| `SecretChannel.FrameLimits` | platform/ipc/secret_channel.cpp:52-84 | what is sent and what is refused by length |
| `SecretChannel.TamperedWireDeliversPrefix` | platform/ipc/secret_channel.cpp:64-98 | whatever is on the wire, header included: where no ciphertext on it is forged, the messages accepted are a prefix of those sent and lie at its front as they were written |
| `SecretChannel.UnforgedCanBeMet` | platform/ipc/secret_channel.cpp:50-98 | there is a stream that opens what it seals and whose own wire meets the hypothesis |
| `Vault.PackPayload` | core/secure/vault.cpp:39-71 | the write pointer lays down `Packed`, or the first refusal is returned |
| `Vault.UnpackPayload` | core/secure/vault.cpp:73-107 | the read pointer computes `Unpack` and stays inside the payload |
| `Vault.UnpackReadsExactlyThePacked` | core/secure/vault.cpp:39-107 | a payload unpacks to a packable wallet exactly when the packed wallet is its prefix |
| `Vault.PackedLayout` | core/secure/vault.cpp:39-71 | where version, entropy, count, labels and keys lie in a payload |
| `Vault.RefusedExactly` | core/secure/vault.cpp:39-56 | which wallets cannot be packed, and which reason comes first |
| `VaultFile.SavedHolds` | core/secure/vault.cpp:141-174 | the saved file byte by byte: costs, salt and nonce in their places, and the payload sealed under the key of just these |
| `VaultFile.OpensExactly` | core/secure/vault.cpp:198-236 | a file opens to a wallet exactly when the key made with the salt and costs that stand in it opens its box, and the payload unpacks |
| `VaultFile.SavedOpens` | core/secure/vault.cpp:109-236 | a saved file opens under its passphrase and gives the saved wallet; if it opens under another, two named keys are equal or the other one opens this box |
| `VaultFile.SavedOpensUnderItsPassphraseOnly` | core/secure/vault.cpp:109-236 | where key derivation and box tell two passphrases apart on this file, the other one opens it exactly when equal up to the first NUL, and gives the saved wallet |
| `VaultFile.Disk.Replace` | core/secure/vault.cpp:177-195 | every crash point of tmp, rotate, rename is recoverable; it succeeds exactly when writing and swing do, and keeps the previous file rotated unless the rotation failed, at every crash point from the swing on |
| `VaultFile.Disk.Save` | core/secure/vault.cpp:141-196 | the same for a whole save; nothing is touched when it is refused |
| `VaultFile.Disk.Shred` | core/secure/vault.cpp:238-263 | the file is gone, overwritten in full before; no other file is touched at any crash point |
| `VaultFile.Disk.ChangePassword` | core/secure/vault.cpp:265-271 | on return the re-keyed file is the only one; every crash point is recoverable; where nothing can be re-keyed nothing is touched |
| `VaultFile.RecoverableOpens` | core/secure/vault.cpp:177-195 | on a recoverable disk the vault opens as old or new, or the rotation opens as old and the tmp file as new |
| `VaultFile.OldPassphraseIsOut` | core/secure/vault.cpp:265-271 | after change_password the new passphrase opens the vault, and the old one opens none of the files exactly when it differs before the first NUL, where the two are told apart on the new file |
| `SendFlowSafety.ReviewedDraftIsQueued` | ui/pages/send_page.cpp:683-704 | whenever a proposal is remembered, the queue holds the envelope of the draft on screen for it |
| `SendFlowSafety.QueuedDraftIsFrozen` | ui/pages/send_page.cpp:540-542 | while the same proposal is remembered, neither requote nor abandoned job changes what is asked for |
| `SendFlowSafety.OneSignaturePerReview` | ui/pages/send_page.cpp:953-966 | a review releases at most one signature, plus one per change of the Bitcoin fee tier |
| `SendReview.ReviewQueues` | ui/pages/send_page.cpp:953-966 | a review queues at most one proposal, plus one per change of the fee tier and one per lost reply |
| `SendReview.DraftIsPriced` | ui/pages/send_page.cpp:753-779 | in every reachable state the Bitcoin draft from the quote on is the selection of its coins at the rate of its tier, fast, slow or normal, with the weight of its kind of address; a queued one has a selection |
| `SendReview.FasterIsNeverCheaper` | ui/pages/send_page.cpp:755-779 | going to a faster tier never needs fewer coins, and for the same coins never charges less |
| `SendScreen.EnteredIsReviewed` | ui/pages/send_page.cpp:474-530 | throughout a review and its delivery the draft asks for what was entered when it was begun |
| `SendScreen.FiguresAreQuoted` | ui/pages/send_page.cpp:222-262 | the figures on screen are those of one quote that succeeded, each in its place, but for the market of a later requote |
| `SendScreen.RetriesOnlyUnsigned` | ui/pages/send_page.cpp:269-286 | a review is offered again only while its deliveries broke before a signature came back |
| `SendScreen.LeavingForgets` | ui/pages/send_page.cpp:186-214 | leaving a review leaves no draft, no proposal and no job |
| `SendScreen.SolCoveredExactly` | ui/pages/send_page.cpp:648-681 | the exact condition of each branch of the Solana guard below the wraps |
| `SendFlowSafety.SolGuardExact` | ui/pages/send_page.cpp:659-663 | passing the balance guard means covering amount and fee exactly for amounts below 2^64 - 5000 |
| `EndToEnd.EveryPlaneRunIsASide` | keyd/child.cpp:68-86 | nothing keyd does to the queue is left out of the send page's world |
| `EndToEnd.ConfirmIsSubmit` | ui/pages/send_page.cpp:953-966 | the page's submission and the plane's are one step over one queue |
| `EndToEnd.CancelIsDeny` | ui/pages/send_page.cpp:208-214 | the page's cancel and the plane's deny are one step |
| `EndToEnd.AnswerIsVerdict` | keyd/child.cpp:392-395 | the answer a delivery gets and the plane's verdict are one step, on a proposal that was pending |
| `EndToEnd.DraftOnScreenIsWhatIsSigned` | keyd/child.cpp:299-305 | every signature recorded for the remembered proposal is over the envelope of the draft on screen, in every run of page and plane |
| `EndToEnd.OneSignaturePerReview` | keyd/child.cpp:326-330 | whoever approves, keyd replies with at most one signature for what a review queued, plus one per change of the Bitcoin fee tier and one per submission whose reply was lost; what the page sent to delivery does not pay for the latter |
| `LostReply.SignedTwice` | ui/pages/send_page.cpp:953-966 | a run of both in which the reply to a submission is lost, the page submits again, and one review is signed twice |
| `EndToEnd.ReleasesAreSignatures` | keyd/child.cpp:402-428 | each id released to the page's deliveries is, once, one of the ids the plane replied with |
| `EndToEnd.FeeOnScreenIsWhatIsSigned` | keyd/signer.cpp:244-318 | whatever signature is recorded for the remembered proposal of a Bitcoin review, its signer judged the plan on screen: its coins, its recipient, its amount, its change and its fee |
| `EndToEnd.EnteredIsWhatIsSigned` | ui/pages/send_page.cpp:474-530 | whatever signature is recorded for the remembered proposal is over bytes that ask for just what the review was begun with |
| `SendPage.SendPage.PollJob` | ui/pages/send_page.cpp:216-286 | the fields change as the transition `Poll` says |
| `SendPage.SendPage.ResetToForm` | ui/pages/send_page.cpp:186-206 | every part of the draft is cleared |
| `SendPage.SendPage.CancelFlow` | ui/pages/send_page.cpp:208-214 | the remembered proposal is denied, job and draft are dropped |
| `SendPage.SendPage.BtcReselect` | ui/pages/send_page.cpp:753-779 | the selection is repriced and the proposal forgotten |
| `SendPage.SendPage.ConfirmSend` | ui/pages/send_page.cpp:936-971 | guard, queue the envelope once, start a delivery for it |
| `TokenText.SanitizeTokenText` | domain/sol/solana.cpp:351-389 | the walk and the trimming loops compute `Sanitized` |
| `TokenText.WalkKeepsFitting` | domain/sol/solana.cpp:358-381 | what is kept are the admissible characters, in order, as long as they fit |
| `TokenText.EarlyReturnExact` | domain/sol/solana.cpp:358-381 | the walk takes the early return exactly when a broken continuation ends the characters and everything admissible before it fits |
| `TokenText.SanitizedIsClean` | domain/sol/solana.cpp:351-389 | for every input: within the limit, whole admissible characters only, no space at an end without the early return |
| `TokenText.SanitizedTwice` | domain/sol/solana.cpp:369-388 | sanitizing again changes nothing exactly when the text does not run into a broken continuation before the limit with a space at an end of what it has kept |
| `TokenText.EarlyReturnSkipsTrimming` | domain/sol/solana.cpp:370-371 | an input on which it does |
| `Utf8.EncodedDecodes` | domain/sol/solana.cpp:360-373 | the walk decodes what section 3 of RFC 3629 encodes |
| `Utf8.NothingSpoofs` | domain/sol/solana.cpp:374-381 | nowhere in a sanitized text stand the bytes of a control, a zero-width or direction mark, a bidi override or isolate, or a byte order mark |
| `Utf8.OnlySpoofsAreDropped` | domain/sol/solana.cpp:351-389 | a text of whole code points loses exactly those, and the spaces at its ends, where the rest fits |

## Left out

- TrustPlane.Next: the three threads of `keyd/child.cpp` are transitions on a value, not a class with
  methods, because their interleaving is the point; what one thread does without touching shared
  state is one step.
- MeterBound: does not model the overflow of the 32-bit counter after 2^31 failures in a row.
- Submit: does not model the wrap of the 64-bit id counter, which 2^64 queued payloads would need.
- GetLine: reads bytes; the translation of line ends by text-mode streams on Windows is not modelled.
- Shred: takes a file whose size cannot be read to be absent.
- EncodeReply: takes the text of an error as given.
- ShownAddressSigns: key derivation and address formats are functions without a definition.
- ReviewedFeeIsSigned: stops at the judgement; signing each input and assembling the transaction are
  not modelled.
- OneSignaturePerReview: takes one keyd for the life of the page, and the confirmation dialog to be
  modal.
- FeeOnScreenIsWhatIsSigned: takes the preset of a Bitcoin review to be a Bitcoin one, as the wallet's
  settings give it.
- TxidBytes: is pinned for txids in lower-case hex; what other characters give is modelled, not stated.
- The signing functions of the EVM and Solana families, and reading Solana messages before signing:
  one function parameter (`Config.sign`).
- JSON, RPC, broadcast and receipts: their outcomes are chosen by the actions.
- Drawing, focus and status texts of the send page.
- Process spawning, hardening, pipe permissions, memory locking and wiping.
- The parsers of the network replies, the token registry, prices and swap pages.
- Durability below file operations.
