# SatPeek: a verified model of its money paths

SatPeek pays users in satoshi for watching ads and solving captchas, and pays them out to
FaucetPay and to four chains. This project models the parts where a mistake moves money, and
proves properties of them in Dafny 4.11. `dafny verify dfyconfig.toml` checks everything.

| area | files |
|---|---|
| The whole platform: one users table and one ledger under earning, payouts and ads | `Books.dfy`, `World*.dfy`, `Conservation.dfy` |
| Earn claims: captcha, gates, credit, compensation, referral share | `EarnClaim*.dfy`, `EarnStore.dfy`, `Commission.dfy` |
| Withdrawals: worker, dead letter, chain watcher, administrators | `Withdrawal*.dfy` |
| Ad campaigns: funding, views, rejection with refund | `Ad*.dfy` |
| Binary formats: RLP, segwit transactions, signing and fees, bech32 regrouping | `Rlp.dfy`, `BigEndian.dfy`, `BtcTx.dfy`, `BtcSigning.dfy`, `BtcFees.dfy`, `Codec.dfy`, `LittleEndian.dfy`, `BtcAddress.dfy` |
| Optimality: discrete Frechet distance, input selection | `Frechet.dfy`, `UtxoSelector.dfy` |
| Arithmetic: price conversion, CIDR prefixes | `PriceOracle.dfy`, `IpAllowlist.dfy`, `Arith.dfy` |

Each protocol has three layers. Functions on a database value `Db`, one per transaction, say
what a transaction does. `System`, `Step`, `Next` and `Run` interleave the transactions of
any number of processes, each of which may abort or die between two of them; the theorems are
about every run from the empty system. The `Store` classes run the same transactions on rows
updated in place, as the services do; their contracts equate the new rows with the functions,
and `ClaimIsRun`, `HandleIsRun` and `SweepIsRun` show that what they do is a run. What one call
decides is stated on its outcome, with the source's own numbers and codes, in `PaidIffDeserved`,
`RefusalsAreExplained`, `WithdrawalDecisions`, `RejectDecides` and `SubmitDecides`.

The protocols share the `users` and `balance_ledgers` tables of `Books`. A run of one protocol
contains the rows the others post and the payouts they count, as steps of their own. `World`
interleaves all three on one database, and `WorldAreas` proves that what each protocol sees of
a run of `World` is one of its own runs. So a theorem about all runs of one protocol holds while
all three are at work; of the conditions that theorems put on the steps of a run, turn-taking of
verifiers and prices that are not negative are shown to carry over. `Conservation`, `WorldViews`,
`WorldSolvency` and `WorldViewers` add what spans the areas.

## What the model shows about the code

- `ChallengeVerifier::verify` reads `issued` and writes its verdict in two queries, and the
  write does not repeat the check; the nightly cleanup may expire the challenge in between. A
  late pass can make a consumed challenge spendable again while a request holds it; and a
  credit that commits but is reported as an exception is compensated although it stands. The
  number of credits a challenge backs is at most one plus the number of such events, and every
  such number is reached by a run. When verifiers take turns on a challenge none of them writes
  to a held one; then, with commits acknowledged, a challenge backs at most one credit. A
  request due to compensate is sure to be the sole holder of its challenge exactly when the
  challenge was never reopened, and its `unconsume` is sure to take effect exactly when no
  verifier wrote to the challenge while it was held.
- The worker's claim accepts rows that are already `processing`, so it is not by itself the
  database backstop its comment describes. The number of sends of a withdrawal that return
  normally is at most one plus the answers that were never recorded plus the claims won while
  another worker was active, and every such number is reached. A refusal is recorded as a
  failure and refunded, whether or not the money had moved. That no paid withdrawal is refunded
  by the job or its dead letter holds, over all runs within given numbers of lost answers,
  overlapping claims, dead letters during a send and refusals that had moved the money, exactly
  when all four numbers are zero: each of the four does it in a run in which it comes once and
  the others never.
- The review flag is only ever set on held rows, so the job's unguarded write of `hold` never
  runs as long as nobody edits rows by hand.
- The post-credit hook of ad views decrements the budget without a guard, and a rejection
  refunds the whole budget while started views can still be credited. What the ledger pays for
  a campaign and gives back exceeds its funding by at most the price of the views credited from
  an empty budget. Over the runs of the whole platform on one set of terms: without a returned
  view, all runs with at most k such views stay within the funding exactly when k of the largest
  payouts fit into the margin of price over payout on the views bought; with rejections, exactly
  when the price covers the largest payout and k is zero or views pay nothing.
- The price conversion is one exact floor for currencies of up to 30 decimals, and for no
  larger number of decimals at all prices. For BTC itself the stored rate is `1`, which is per
  satoshi; the general formula's rate, and the comment beside it, are per main unit.
- The second exception in `toPubkeyHash` and the 20-byte test of `isValid` never fire: 32
  five-bit words always make 20 bytes.
- `computeCost` does not clamp the platform percentage as `ReferralPayout` does; the funding
  rule holds for every reward exactly when that percentage is not negative.
- The input selector is complete exactly for fee rates of -9 or more, where a change output
  costs at least -294 satoshi. Its fee estimate is the upper bound that the class comment
  promises exactly up to 252 inputs; beyond, the input count takes two more bytes than the
  overhead allows for, and the fee can be two virtual bytes short.

## Model

| member | source | states |
|---|---|---|
| `Conservation.CountersAreLedgerSums` | app/Services/ReferralPayout.php:77-104 | After every run of the whole platform a user's balance is the sum of all the user's ledger rows, `total_earned_sat` the sum of the reward and commission rows only, and `total_withdrawn_sat` the sum of the withdrawals that ever settled, each once. |
| `Conservation.BalanceIsEarnedLessSpent` | app/Http/Controllers/Api/WithdrawController.php:195-230 | After every run a balance is what the user earned, less the withdrawals not refunded, less what the user's campaigns cost after their refunds. |
| `WorldViews.ViewsStayWithinFunding` | app/Services/EarnSessionClaimService.php:136-153 | After every run the rewards and commissions in the ledger for a campaign's views are what the campaign counts as paid, and with its refund exceed its funding by at most the price of the views credited from an empty budget. |
| `WorldAreas.EarningRuns` | app/Services/EarnSessionClaimService.php:61-173 | What earning sees of a run of the whole platform is one of its own runs, and verifiers take turns in it if they do on the platform. |
| `WorldAreas.PayoutsRun` | app/Payout/ProcessWithdrawalJob.php:93-260 | The same for payouts. |
| `WorldAreas.AdsRun` | app/Http/Controllers/AdvertiseController.php:86-119 | The same for ads, for every run; prices that are not negative on the platform are not negative there. |
| `WorldAreas.ChallengeBacksOneCredit` | app/Captcha/CaptchaConsumer.php:44-119 | With payouts and ads at work, verifiers taking turns and commits acknowledged, two credited requests with the same challenge are the same request. |
| `WorldSolvency.WithinFundingIffMarginCovers` | app/Http/Controllers/Api/PtcController.php:189-197 | Without a returned view, the ledger of every run of the platform with at most k overdrawn views pays no more for a campaign than the campaign brought in, iff k largest payouts fit into the margin of price over payout on the views bought. |
| `WorldSolvency.WithinFundingIffNeverOverdrawn` | app/Filament/Resources/PtcAdResource.php:242-265 | With rejections, iff the price covers the largest payout and k is zero or the reward is. |
| `WorldSolvency.LastViewPaidTwice` | app/Http/Controllers/Api/PtcController.php:189-197 | A run of the platform after which the ledger has charged a campaign of one view 125 satoshi and paid 220 for it. |
| `WorldViewers.OwnersEarnNoReward` | app/Http/Controllers/Api/PtcController.php:53-91 | In every run of the platform no reward for a view of a campaign goes to the campaign's owner. |
| `WorldViewers.ApprovedBeforeShown` | app/Http/Controllers/Api/PtcController.php:53-91 | In every run of the platform in which a campaign is not approved, it opens no view and the ledger pays nothing for it. |
| `EarnClaimTokens.CreditsPerChallenge` | app/Services/EarnSessionClaimService.php:80-170 | Over every interleaving of requests, crashes, aborted credits and compensations, a challenge backs at most one credit, plus one per late pass onto a held challenge, plus one per committed credit reported as an exception. |
| `EarnClaimTokens.TurnsMeanNoHeldWrite` | app/Captcha/ChallengeVerifier.php:22-66 | In runs where no verifier starts on a challenge while another is at work on it, no verifier writes to a challenge that a request holds, whatever the cleanup expires meanwhile. |
| `EarnClaimTokens.ChallengeBacksOneCredit` | app/Captcha/CaptchaConsumer.php:44-119 | In such runs, with commits acknowledged, two credited requests with the same challenge are the same request. |
| `EarnClaimTokens.CompensatorHoldsAlone` | app/Services/EarnSessionClaimService.php:157-170 | A request due to compensate is the only holder of its challenge unless that was reopened. |
| `EarnClaimTokens.CompensationUndoesOwnConsumption` | app/Captcha/CaptchaConsumer.php:107-119 | Unless a verifier wrote to the challenge while it was held, the guarded update fires and leaves the challenge spendable by the same user and held by nobody. |
| `EarnClaimTokens.CreditBelongsToSolver` | app/Captcha/CaptchaConsumer.php:56-80 | Whatever the interleaving, a credit is backed by a challenge bound to the credited user. |
| `EarnClaimTokens.StepKeepsTokens` | app/Captcha/CaptchaConsumer.php:44-119 | Every step of every process keeps the count of holders plus solved challenges within the spending rights, and, unless a verifier wrote to it while it was held, `consumed` equal to having exactly one holder. |
| `EarnClaimSolved.CreditNeedsPass` | app/Captcha/ChallengeVerifier.php:22-66 | Over every interleaving, a request is credited only on a challenge that a verifier passed during the run. |
| `EarnClaimRespend.BoundIsReached` | app/Captcha/ChallengeVerifier.php:22-66 | For all n and m there is a run in which one challenge is reopened n times, has m unacknowledged commits, and backs 1 + n + m credits. |
| `EarnClaimRespend.HoldsAloneIffNeverReopened` | app/Captcha/ChallengeVerifier.php:22-66 | In all runs with at most n reopenings compensating requests hold their challenges alone, iff n is zero. |
| `EarnClaimRespend.CompensatesIffNeverClobbered` | app/Captcha/CaptchaConsumer.php:107-119 | In all runs with at most n verifier writes to a held challenge compensations take effect, iff n is zero. |
| `EarnClaimLedger.SessionCreditedOnce` | app/Services/EarnSessionClaimService.php:128-142 | No two requests are credited for the same earn session. |
| `EarnClaimLedger.CreditedSessionStaysClosed` | app/Services/EarnSessionClaimService.php:180-187 | A session with a ledger row is not pending after any further run, although `rejectRow` writes without a guard. |
| `EarnClaimLedger.RowsAreCredits` | app/Services/EarnSessionClaimService.php:136-142 | Reward rows and credited requests correspond one to one, and no two rows share reason and reference. |
| `EarnClaimLedger.IndexNeverFires` | database/migrations/2026_04_28_000005_unique_balance_ledger_per_reference.php:31-37 | From a consistent database a credit commits exactly when the session is pending: the unique index never decides. |
| `EarnClaimLedger.ReachableIndexNeverFires` | app/Services/EarnSessionClaimService.php:122-134 | The same in every reachable state for every request about to credit. |
| `EarnClaimReferrals.LifetimeIsCommissionSum` | app/Services/ReferralPayout.php:77-104 | Every commission row pays the referrer of the session's owner, and each referral row's lifetime counter is the sum of exactly those rows. |
| `EarnStore.Store.Run` | app/Services/EarnSessionClaimService.php:61-173 | The claim in place: rows and reported outcome in every branch, rollback and compensation included; what is paid deserved it, and what is refused is refused for the first reason that applies. |
| `EarnStore.PaidIffDeserved` | app/Services/EarnSessionClaimService.php:74-156 | A claim is paid only with a pending session, its token, a captcha this user solved, no objection of the surface and the minimum time elapsed; from a consistent database exactly then, if the session is still pending and nothing fails. Session, captcha and ledger rows of a payment are given. |
| `EarnStore.RefusalsAreExplained` | app/Services/EarnSessionClaimService.php:74-101 | Which code each shortcoming is refused with, and that a gate leaves the session rejected and the captcha spent while the cheap checks leave every row alone. |
| `EarnStore.ClaimIsRun` | app/Services/EarnSessionClaimService.php:61-173 | The in-place claim is one run of the protocol and reports a payment exactly when its request ends credited. |
| `EarnStore.FailedClaimLeavesNoTrace` | app/Services/EarnSessionClaimService.php:157-170 | A claim that neither credits nor fails at a gate leaves all rows as it found them. |
| `Commission.CostCoversPayout` | app/Http/Controllers/AdvertiseController.php:208-213 | The price of a view covers reward plus capped commission. |
| `Commission.CostCoversPayoutIff` | app/Http/Controllers/AdvertiseController.php:208-213 | It does so for all rewards exactly when the platform percentage is not negative. |
| `Commission.PriceIsSmallest` | app/Http/Controllers/AdvertiseController.php:208-213 | The price is the smallest whole amount that is no less than the reward with the platform percentage on top. |
| `Commission.CommissionIff` | app/Services/ReferralPayout.php:61-75 | There is a commission iff both percentages are positive and their smaller share of the reward makes a satoshi. |
| `Commission.CommissionIsCapped` | app/Services/ReferralPayout.php:61-75 | The commission is the largest whole amount within both percentages of the reward. |
| `WithdrawalLedger.RefundedIffFailedOrRejected` | app/Payout/ProcessWithdrawalJob.php:239-260 | After every run the ledger rows of a withdrawal are its debit, followed by one job or revert refund iff it is failed, one rejection refund iff it is rejected, and nothing else. |
| `WithdrawalLedger.WithdrawalNetsOut` | app/Payout/WatchOnchainConfirmationsJob.php:330-353 | Those rows add up to zero iff the row is failed or rejected, and to minus the amount otherwise. |
| `WithdrawalLedger.WithdrawnCountsEachSettlementOnce` | app/Payout/ProcessWithdrawalJob.php:168-173 | `total_withdrawn_sat` is the sum over the user's withdrawals that ever settled, each once; these include all rows now broadcast or sent and the later reverted ones. |
| `WithdrawalLedger.RefundsNeverHitIndex` | app/Filament/Resources/WithdrawalResource.php:227-250 | In every reachable state each of the three refunds happens exactly when its status guard matches. |
| `WithdrawalLedger.StepFollowsEdges` | app/Payout/ProcessWithdrawalJob.php:93-260 | Every step keeps owner, amount and route of a row and moves its status only along the allowed transitions. |
| `WithdrawalLedger.StatusChangesAreBounded` | app/Payout/WatchOnchainConfirmationsJob.php:304-353 | A row changes status at most four times in any run. |
| `WithdrawalLedger.TerminalStatusesAbsorb` | app/Filament/Resources/WithdrawalResource.php:176-269 | Failed, rejected and sent are absorbing. |
| `WithdrawalLedger.SentMeansFinal` | app/Payout/WatchOnchainConfirmationsJob.php:73-86 | An on-chain row becomes sent only by a watcher step that saw at least 3 confirmations on Bitcoin, 12 on Ethereum or 19 on Tron of a transaction that did not revert. |
| `WithdrawalDecisions.SightingDecides` | app/Payout/WatchOnchainConfirmationsJob.php:304-353 | One sighting of a broadcast row: sent from 3, 12 or 19 confirmations on, broadcast below, failed and refunded when reverted, except on Bitcoin; with the new row and ledger. |
| `WithdrawalDecisions.UnminedDecidesNothing` | app/Payout/WatchOnchainConfirmationsJob.php:152-181 | A transaction the chain does not know, or has in no block, changes nothing. |
| `WithdrawalDecisions.ReviewedBeforeSent` | app/Http/Controllers/Api/WithdrawController.php:195-230 | A withdrawal that needs a review is held or rejected, and never sent by any worker, over every interleaving in which nobody approves it. |
| `WithdrawalDecisions.RequestDecides` | app/Http/Controllers/Api/WithdrawController.php:195-230 | A request debits its amount at once, and is held iff it needs a review and queued otherwise. |
| `WithdrawalDecisions.ReviewDecides` | app/Filament/Resources/WithdrawalResource.php:176-269 | Approval queues held rows and no others; rejection refunds held and queued rows and no others. |
| `WithdrawalDecisions.JobDecides` | app/Payout/ProcessWithdrawalJob.php:106-204 | Each answer of the gateway to one job: settled as sent or, on a chain, as broadcast and counted; failed and refunded; or left processing with the exception thrown. |
| `WithdrawalDecisions.JobWaits` | app/Payout/ProcessWithdrawalJob.php:93-114 | The job leaves rows that are not queued or processing alone, and holds back one that needs a review. |
| `WithdrawalSends.SendsAreBounded` | app/Payout/ProcessWithdrawalJob.php:106-140 | Sends of a withdrawal that return normally, whatever they answer, number at most one plus the answers never recorded plus the overlapping claims, over every interleaving; payouts number no more. |
| `WithdrawalSends.OneSendReturns` | app/Payout/ProcessWithdrawalJob.php:134-204 | With every answer recorded, no overlapping claim and no dead letter during a send: at most one send returns normally, a broadcast or sent row answered ok, a rejected row was never sent, and a row the job or its dead letter refunded never answered ok and was paid iff its one refusal had moved the money. |
| `WithdrawalOverpay.BoundIsReached` | app/Payout/ProcessWithdrawalJob.php:115-126 | For all numbers of lost answers and overlaps there is a run that reaches the bound and pays each time. |
| `WithdrawalOverpay.NeverPaidAndRefundedIff` | app/Payout/ProcessWithdrawalJob.php:239-260 | In all runs within given numbers of lost answers, overlapping claims, dead letters during a send and refusals that moved the money, no withdrawal is both paid and refunded by the job or its dead letter, iff all four numbers are zero. |
| `WithdrawalOverpay.LostAnswerIsRefunded` | app/Payout/ProcessWithdrawalJob.php:194-204 | A run with one lost answer in which a paid withdrawal is refunded by the dead-letter handler. |
| `WithdrawalOverpay.AmbiguousRefusalIsRefunded` | app/Payout/ProcessWithdrawalJob.php:41-47 | A run with one worker and every answer recorded in which a refusal had moved the money and the withdrawal is refunded. |
| `WithdrawalOverpay.OverlapIsRefunded` | app/Payout/ProcessWithdrawalJob.php:115-126 | A run with one overlapping claim and nothing else amiss in which one worker pays and the other is refused and refunds. |
| `WithdrawalOverpay.InterruptIsRefunded` | app/Payout/ProcessWithdrawalJob.php:194-204 | A run in which the dead letter refunds a row that its worker then pays, and nothing else is amiss. |
| `WithdrawalStore.Store.Handle` | app/Payout/ProcessWithdrawalJob.php:93-186 | The job in place: rows and escaping exception in every branch. |
| `WithdrawalStore.HandleIsRun` | app/Payout/ProcessWithdrawalJob.php:93-186 | The in-place job is one run of the interleaved system. |
| `WithdrawalStore.Store.Sweep` | app/Payout/WatchOnchainConfirmationsJob.php:129-302 | The watcher in place: the loop over the watched rows applies the reply of each row in order. |
| `WithdrawalStore.SweepIsRun` | app/Payout/WatchOnchainConfirmationsJob.php:129-302 | A sweep is a run of watcher steps. |
| `WithdrawalDecisions.SweepIsPointwise` | app/Payout/WatchOnchainConfirmationsJob.php:129-302 | A sweep that sees each row once does to each what a sighting of it alone would do, in whatever order. |
| `Rlp.RoundTrip` | app/Payout/Eth/EthRlp.php:57-89 | Decoding an encoded item followed by any bytes gives the item and those bytes, for any nesting and any length. |
| `Rlp.EncodingIsPrefixFree` | app/Payout/Eth/EthRlp.php:57-89 | No encoding is a proper prefix of another, and encoding is injective. |
| `Rlp.DecodeIsCanonical` | app/Payout/Eth/EthRlp.php:57-89 | Whatever the strict decoder accepts is the encoding of its result. |
| `Rlp.EncodingForms` | app/Payout/Eth/EthRlp.php:57-89 | The forms byte by byte: single bytes up to 127, 128 or 192 plus the length up to 55, and 183 or 247 plus the length of the length beyond. |
| `Rlp.UintRoundTrip` | app/Payout/Eth/EthRlp.php:39-54 | A decimal string encodes to the item that holds the shortest big-endian bytes of its value. |
| `Rlp.NumeralsEncode` | app/Payout/Eth/EthRlp.php:39-54 | The ordinary decimal numeral of any number, printed by division by ten, with or without leading zeros, encodes to the item of that number's shortest bytes. |
| `BigEndian.DecimalOfNumeral` | app/Payout/Eth/EthRlp.php:39-54 | The numeral of a number is the one string without needless zeros that is read as that number. |
| `Rlp.UintIsInjective` | app/Payout/Eth/EthRlp.php:39-54 | Two decimal strings share an encoding iff they denote the same number. |
| `Rlp.UintRefusesIff` | app/Payout/Eth/EthRlp.php:39-43 | Refused is exactly the empty string and any with a character other than the ten digits. |
| `Rlp.IntToBytes` | app/Payout/Eth/EthRlp.php:92-104 | The loop yields the big-endian bytes without leading zeros, and nothing for non-positive numbers. |
| `BigEndian.HexRouteIsMinimal` | app/Payout/Eth/EthRlp.php:44-53 | Hexadecimal digits padded to even length and packed in pairs are the shortest big-endian bytes. |
| `BigEndian.MinimalIsUnique` | app/Payout/Eth/EthRlp.php:92-104 | Bytes without a leading zero are the only ones of their value. |
| `LittleEndian.VarIntReads` | app/Payout/Btc/BtcTxSigner.php:243-256 | A compact size followed by anything reads back, in all four widths. |
| `LittleEndian.VarIntIsCanonical` | app/Payout/Btc/BtcTxSigner.php:243-256 | The strict reader accepts only what `varInt` writes. |
| `LittleEndian.VarIntIsShortest` | app/Payout/Btc/BtcTxSigner.php:243-256 | No compact-size form of a number is shorter than the one written. |
| `LittleEndian.VarIntForms` | app/Payout/Btc/BtcTxSigner.php:243-256 | The four forms byte by byte: up to 252 as it is, then 253, 254 or 255 and two, four or eight bytes. |
| `LittleEndian.PackedDigit` | app/Payout/Btc/BtcTxSigner.php:109-119 | Byte i of a packed integer is its digit of weight 256^i. |
| `LittleEndian.HexAlphabet` | app/Payout/Btc/BtcTxSigner.php:141-149 | The sixteen digits, read in either letter case and printed in lower case. |
| `BtcTx.SerializeSegwitTx` | app/Payout/Btc/BtcTxSigner.php:181-206 | The appending loops produce the sections of the wire format in order. |
| `BtcTx.ParseSerialize` | app/Payout/Btc/BtcTxSigner.php:181-206 | Parsing the serialised transaction followed by any bytes recovers every field and those bytes; transaction ids in either letter case come back in lower case. |
| `BtcTx.ParseIsCanonical` | app/Payout/Btc/BtcTxSigner.php:181-206 | Whatever parses is the serialisation of a transaction in range. |
| `BtcTx.OutpointOnWire` | app/Payout/Btc/BtcTxSigner.php:141-149 | An outpoint is the id's bytes from last to first, then the index, lowest byte first. |
| `BtcSigning.SectionsOnWire` | app/Payout/Btc/BtcTxSigner.php:181-206 | Where version, marker and flag, counts, inputs, outputs and locktime stand, for up to 252 inputs and outputs. |
| `BtcSigning.InputOnWire` | app/Payout/Btc/BtcTxSigner.php:186-191 | Input i is its outpoint, an empty script and four bytes 255, at byte 7 + 41 i. |
| `BtcSigning.SignSegwit` | app/Payout/Btc/BtcTxSigner.php:61-89 | Refuses empty inputs and outputs, and otherwise returns the hexadecimal serialisation of the signed transaction. |
| `BtcSigning.BroadcastIsWhatWasSigned` | app/Payout/Btc/BtcTxSigner.php:73-136 | Decoding the broadcast recovers the request, ids in lower case, and each signature is over the preimage recomputed from the decoded transaction. |
| `BtcSigning.PreimageLayout` | app/Payout/Btc/BtcTxSigner.php:109-119 | The 182 bytes that are hashed and signed, field by field at their offsets, as BIP 143 orders them. |
| `BtcSigning.ConcatPrevouts` | app/Payout/Btc/BtcTxSigner.php:141-149 | The loop yields the concatenated outpoints. |
| `BtcSigning.ConcatOutputs` | app/Payout/Btc/BtcTxSigner.php:163-172 | The loop yields exactly the output records of the wire format. |
| `BtcSigning.InputSectionInterleaves` | app/Payout/Btc/BtcTxSigner.php:186-191 | Record i on the wire is slice i of the prevouts, the empty script, and slice i of the sequences. |
| `BtcSigning.PrevoutsDetermineInputs` | app/Payout/Btc/BtcTxSigner.php:141-149 | Two prevouts strings are equal iff the inputs are, up to the letter case of their ids. |
| `BtcSigning.OutputsStringDeterminesOutputs` | app/Payout/Btc/BtcTxSigner.php:163-172 | The outputs string determines the outputs although it carries no count. |
| `BtcSigning.PreimageCommits` | app/Payout/Btc/BtcTxSigner.php:109-119 | Two equal preimages have the same outpoint, amount, key hash, version and locktime; the same inputs, or their two prevouts strings are different strings with one hash; and the same outputs, or their two output strings are. |
| `BtcAddress.WordsToBytes` | app/Payout/Btc/BtcAddress.php:114-136 | With its 64-bit accumulator, returns the byte string whose zero-padded bits are the words' bits, and nothing when there is none. |
| `BtcAddress.ShiftInAppends` | app/Payout/Btc/BtcAddress.php:125-126 | Shifting a word into the wrapping accumulator appends its bits as far as they are ever read. |
| `BtcAddress.RegroupsIsInverse` | app/Payout/Btc/BtcAddress.php:114-136 | The accepted word sequences are exactly the zero-padded 8-to-5 regroupings: a bijection. |
| `BtcAddress.ThirtyTwoWords` | app/Payout/Btc/BtcAddress.php:67-77 | Thirty-two words regroup iff they are in range, and then to exactly 20 bytes. |
| `BtcAddress.IsValid` | app/Payout/Btc/BtcAddress.php:42-78 | Accepts exactly well-shaped addresses that decode under the prefix to version 0 and 32 words in range. |
| `BtcAddress.ShapeDecides` | app/Payout/Btc/BtcAddress.php:46-52 | The tests before decoding refuse exactly fewer than 14 or more than 74 characters, and mixed letter case. |
| `BtcAddress.LengthNeverDecides` | app/Payout/Btc/BtcAddress.php:42-78 | For prefixes of up to 34 letters the length test refuses nothing that decodes to a version-0 program of 32 words. |
| `BtcAddress.ToPubkeyHash` | app/Payout/Btc/BtcAddress.php:85-97 | Succeeds exactly on valid addresses, with the 20 bytes their words regroup to. |
| `BtcAddress.ToScriptPubKey` | app/Payout/Btc/BtcAddress.php:103-106 | The script determines the address words: its program regroups to them. |
| `Frechet.FrechetDistance` | app/Captcha/TrajectoryTraceProvider.php:260-286 | The table filled in place yields the recurrence's last entry, or infinity for an empty sequence. |
| `Frechet.DistanceIsMinimum` | app/Captcha/TrajectoryTraceProvider.php:260-286 | The distance is the minimum over all monotone couplings of the longest pair distance: attained and never beaten. |
| `Frechet.ShapeTestMeaning` | app/Captcha/TrajectoryTraceProvider.php:139-143 | The shape test passes iff some coupling keeps every visited pair within the tolerance. |
| `Frechet.DistanceIsSymmetric` | app/Captcha/TrajectoryTraceProvider.php:260-286 | Swapping the sequences changes nothing when the point distance is symmetric. |
| `Frechet.RootCommutes` | app/Captcha/TrajectoryTraceProvider.php:288-294 | Taking roots of squared distances before or after the programme is the same, and the result is symmetric. |
| `Frechet.SquaredIsEuclidean` | app/Captcha/TrajectoryTraceProvider.php:288-294 | The radicand is unchanged by moving and by turning the plane, and is the squared difference along an axis. |
| `UtxoSelector.Select` | app/Payout/Btc/BtcUtxoSelector.php:51-100 | Returns the shortest prefix of the sorted candidates that passes one of the two tests, or the shortfall when none does. |
| `UtxoSelector.SelectIsCompleteAndMinimal` | app/Payout/Btc/BtcUtxoSelector.php:55-100 | Fails iff no non-empty choice of confirmed positive outputs pays amount and one-output fee; no choice with fewer outputs than returned pays. |
| `UtxoSelector.CompleteIffChangeCosts` | app/Payout/Btc/BtcUtxoSelector.php:118-125 | Completeness for all wallets and amounts holds exactly for fee rates of -9 or more. |
| `UtxoSelector.LargestDecide` | app/Payout/Btc/BtcUtxoSelector.php:55-63 | A choice of k outputs that pays exists iff the k largest pay. |
| `UtxoSelector.SelectConserves` | app/Payout/Btc/BtcUtxoSelector.php:74-92 | Distinct eligible inputs, input sum equal to amount, change and fee, no change between 1 and 293, fee at least the estimate and below the two-output fee plus 294 when there is no change. |
| `BtcFees.EstimateCoversSize` | app/Payout/Btc/BtcUtxoSelector.php:23-36 | Up to 252 inputs and outputs the estimate is no less than the virtual size of the signed transaction, and equal to it when all signatures have 71 bytes. |
| `BtcFees.CoversIffCountsAreShort` | app/Payout/Btc/BtcUtxoSelector.php:23-36 | The estimate is the upper bound it is said to be for all payments with n inputs and m outputs iff both counts are at most 252. |
| `BtcFees.ManyInputsFallShortByTwo` | app/Payout/Btc/BtcUtxoSelector.php:118-125 | From 253 to 65535 inputs it is short by at most two virtual bytes, and by exactly two with full signatures. |
| `BtcFees.SelectedFeePays` | app/Payout/Btc/BtcUtxoSelector.php:74-92 | The fee the selection leaves is at least the fee rate times the virtual size of the transaction broadcast with it, up to 252 inputs. |
| `PriceOracle.ExactUpToThirtyDecimals` | app/Payout/PriceOracle.php:76-84 | The staged truncations equal one exact floor at all amounts and prices iff the currency has at most 30 decimals. |
| `PriceOracle.StagedIsExact` | app/Payout/PriceOracle.php:76-84 | Up to 30 decimals the amount is floor(sat * P * 10^d / (10^8 * Q)). |
| `PriceOracle.StagedIsExactIff` | app/Payout/PriceOracle.php:76-84 | Beyond 30 decimals the amount is exact iff the remainder of the price division, scaled, stays below the price; it is never too large. |
| `PriceOracle.NeverOverpays` | app/Payout/PriceOracle.php:79-84 | For any number of decimals the amount is worth at most the debit. |
| `PriceOracle.NegativeIsZero` | app/Payout/PriceOracle.php:82-84 | Amounts of zero or less convert to zero. |
| `PriceOracle.AmountIsMonotone` | app/Payout/PriceOracle.php:76-84 | More satoshi never convert to less, for any number of decimals, and no amount is negative. |
| `PriceOracle.SplittingNeverPays` | app/Payout/PriceOracle.php:76-84 | Two conversions never pay more than one of their sum, for any number of decimals. |
| `PriceOracle.RateIsExact` | app/Payout/PriceOracle.php:89-93 | The stored rate is floor(10^26 * Q / P). |
| `PriceOracle.RateReproducesDebit` | app/Payout/PriceOracle.php:86-93 | Up to 30 decimals, amount * rate <= sat * 10^(18+d) < (amount + 1) * (rate + 1). |
| `PriceOracle.RecomputedRefundIsSafe` | app/Payout/PriceOracle.php:86-93 | A refund recomputed from amount and rate never exceeds the debit, for any number of decimals. |
| `PriceOracle.IdentityShortcut` | app/Payout/PriceOracle.php:59-61 | The general formula at any one price returns the amount the BTC shortcut returns. |
| `PriceOracle.ShortcutRateIsPerSatoshi` | app/Payout/PriceOracle.php:59-61 | Its rate for equal prices is 10^8 times the one the shortcut stores. |
| `PriceOracle.ConvertSucceedsIff` | app/Payout/PriceOracle.php:63-93 | A conversion succeeds iff both prices are reported and leave something after rounding to 18 decimals; up to 30 decimals it is then the exact floor and rate. Positive prices that round to zero end in a division by zero, not in the oracle's own exception. |
| `PriceOracle.FormatIsNearest` | app/Payout/PriceOracle.php:155-158 | Formatting a price to 18 decimals is off by at most half a unit of the last, and halves go away from zero. |
| `IpAllowlist.MatchesIffPrefixAgrees` | app/BotDetection/IpAllowlist.php:79-94 | Comparing whole bytes and one masked byte is agreement of the first n bits. |
| `IpAllowlist.MaskedBytes` | app/BotDetection/IpAllowlist.php:92-94 | Masked bytes are equal iff their leading bits agree. |
| `IpAllowlist.EntryMatchesIffCovers` | app/BotDetection/IpAllowlist.php:50-95 | An entry matches iff it is the address itself, or a well-formed prefix of the same family with agreeing bits. |
| `IpAllowlist.PrefixEntryMeans` | app/BotDetection/IpAllowlist.php:56-95 | The entry "address/n" matches exactly the addresses of its family that have the same number once the last bits are divided away, for every n no greater than the width. |
| `IpAllowlist.TrimStrips` | app/BotDetection/IpAllowlist.php:37 | Trimming removes white space from both ends, and all of it. |
| `IpAllowlist.MatchesIffCovered` | app/BotDetection/IpAllowlist.php:32-48 | The list matches iff the address is valid and some non-blank entry covers it. |
| `IpAllowlist.PrefixIsEquivalence` | app/BotDetection/IpAllowlist.php:79-94 | Matching at n bits is an equivalence and implies matching at fewer. |
| `IpAllowlist.FullPrefixIsBareAddress` | app/BotDetection/IpAllowlist.php:52-55 | A full-length prefix matches its own address only. |
| `AdLedger.RefundedAtMostOnce` | app/Filament/Resources/PtcAdResource.php:230-268 | After any run a campaign's ledger rows are its funding and at most one refund, of exactly the views returned. |
| `AdLedger.RejectCommits` | app/Filament/Resources/PtcAdResource.php:242-249 | A rejection commits exactly when its status guard matches. |
| `AdLedger.RejectDecides` | app/Filament/Resources/PtcAdResource.php:242-265 | A pending or approved campaign is rejected, inactive and without views afterwards, and its remaining views are refunded at their price; any other is left alone. |
| `AdLedger.SubmitDecides` | app/Http/Controllers/AdvertiseController.php:60-119 | A submission is charged its price for all its views, approved or pending, and refused iff the balance read is too low; read at the time, the balance does not become negative. |
| `AdLedger.Store.RejectAndRefund` | app/Filament/Resources/PtcAdResource.php:242-265 | The locked rejection in place: refund row, balance, status and remaining views together or not at all. |
| `AdLedger.Store.Submit` | app/Http/Controllers/AdvertiseController.php:86-119 | The submission in place: campaign, funding row and balance together, or nothing when the balance read was too low. |
| `AdLedger.Store.UseView` | app/Http/Controllers/Api/PtcController.php:189-197 | The hook in place: the row is decremented, and completed by the value in memory. |
| `AdBudget.OverrunIsOverdrawnViews` | app/Http/Controllers/AdvertiseController.php:60-63 | Payouts plus refund exceed the funding by at most the price of the views credited from an empty budget; with none they stay within it. |
| `AdBudget.ExhaustedIsOver` | app/Http/Controllers/Api/PtcController.php:189-197 | In runs whose credits read the row as it is, and in which no exhausted campaign is approved, a campaign without views left is completed or rejected. |
| `AdBudget.StaleReadsKeepItApproved` | app/Http/Controllers/Api/PtcController.php:189-197 | A run in which two requests read two views left, and the campaign stays approved with none left. |
| `AdBudget.CreditDecides` | app/Http/Controllers/Api/PtcController.php:189-197 | A credit takes one view, pays the reward and the commission, and completes the campaign when the value in memory is at most one, and leaves its status otherwise. |
| `AdBudget.StartDecides` | app/Http/Controllers/Api/PtcController.php:53-91 | A view opens exactly on an active, approved campaign with views left, and changes neither budget nor payouts. |
| `AdBudget.SwitchesDecide` | app/Http/Controllers/Api/PtcController.php:53-91 | Approval shows a campaign as long as views are left; pausing hides it and resuming undoes that. |

## Left out

- HTTP, RPC, Redis, mail, audit log, queue and admin-panel presentation: a gateway or chain reply is an arbitrary value in a step.
- SHA-256, RIPEMD-160, secp256k1 signing, key derivation and the bech32 checksum: functions with stated output lengths.
- Floating point: prices are reals, `floor($reward * $pct / 100)` and `ceil` are exact, and point distances are an arbitrary real function with `RootCommutes` for the square root.
- 64-bit overflow of satoshi sums, fees and counters: integers are unbounded except in `BtcAddress`, where the accumulator wraps, and in the binary formats, where lengths are bounded.
- The job's three tries, back-off and the uniqueness lock of the queue: any number of workers and retries may run at any time, which is what the bounds measure.
- `WithdrawalSends.OneSendReturns`: assumes, as the job's comment does, that an exception of the gateway means that nothing reached the wire; an answer of ok counts as paid even if the chain reverts it later.
- Direct admin edits of rows and balances, row pruning, expiry of sessions (no code writes it), BitcoTask postbacks.
- `Conservation.BalanceIsEarnedLessSpent`: for prices of views that are not negative; with a platform percentage below -100 a refund would be negative and is not paid.
- `AdLedger.RefundedAtMostOnce`: for prices of views that are not negative, likewise.
- `WorldSolvency.WithinFundingIffMarginCovers`: one reward, number of views and pair of percentages for all campaigns of a run, at least one view, and a price that is not negative.
- `WorldViews.ViewsStayWithinFunding`: assumes that the percentages in force at each credit stay within those charged at submission, because the code reads the configuration anew each time; and that nobody edits a campaign's reward.
- The daily limit of views per user and the viewer's tier, which only refuse views.
- Non-negativity of balances is not claimed: the checks before funding and before a withdrawal use what the request had read and are outside the transaction.
- Timestamps, failure reasons and raw gateway responses stored beside a status.
- Infinity as the initial fill of the distance table: every cell is overwritten before it is read.
- `BtcFees.EstimateCoversSize`: signatures of at most 71 bytes before the hash-type byte, which is what the canonical encoding allows, and outputs to key hashes, the only ones `BtcAddress` accepts.
- `normaliseInputs`, which only casts the fields of the selected outputs.
- `filter_var` and `inet_pton`, which are parameters of the allowlist, and the warning `inet_pton` emits for malformed entries.
- Entropy, jitter, curve sampling, bot-score weights, widgets and summaries: no crisp law beyond their formulas.
