# Vanargand, modelled and proved

Vanargand is a ledger written as deterministic state machines over ordered maps, with integer
arithmetic only. This project models its hard core in Dafny and proves what the core is for:

- **the ledger**: all 21 kinds of transaction over accounts, channels, assets, names, recoveries
  and offences; conservation, authority and the offline ceiling over whole runs;
- **the block pipeline**: the ten-step validator, the producer, and their agreement;
- **payment channels**: hash chains, tokens, the close/dispute/settle machine, the watchtower;
- **authenticated state**: the collapsing sparse Merkle tree, the list tree, the canonical codec;
- **consensus**: the weighted draw, the duty roster, certificates, the leak, emission;
- **address text**: Bech32m and the addresses built on it.

## How to read it

Each file is one module. What the source computes by expressions is a function; what it does by
updating fields or in loops is a class or a method whose contract equates its result with such a
function, and the theorems are about the functions. `LedgerSpec` is the transition function of the
ledger and `Ledgers` the class that runs it; `BlockRules` and `Proposals` specify the pipeline and
`Node` runs it; `Codec` and `Records` are the grammar of the encoding, `Wire`, `RecordWire` and
`RecordReads` the buffers and loops. `Admission`, `Acceptance`, `Custody` and `Effects` say of a
transaction exactly when it is accepted and what it changes, `Vouchers` and `BlockAcceptance` the
same of blocks, none of them through the transition functions. A run is any sequence of attempted events, and a refused
event leaves the ledger as it was, so a theorem about runs covers every history.

Hashes and signatures are the fields of an `Oracle`, an arbitrary record of functions, so what
takes one holds for every hash and every signature scheme. Where a digest must not collide it is
either a symbolic term (the two Merkle trees), a link function assumed free of collisions and
cycles (`Chains.Free`, which `Chains.TermsAreFree` shows to be satisfiable), or a hash assumed not
to collide on the strings in use (`StateRoot.Apart`). Integer widths are subset types, and every
checked, saturating or truncating operation is written out.

`dafny verify dfyconfig.toml` checks the whole project.

## Where the code and its comments differ

The model follows the code.

- A conviction pays out a margin that was never debited: an input is `Scenes.VanCanGrow`, the exact
  condition `Runs.ConservesVanExactly`. Balances can then pass what housekeeping can pay out
  (`Halts.HousekeepingSucceedsExactly`), and finality can stop for good
  (`Standstill.FinalityCanStop`); without a seized margin
  housekeeping never fails (`LedgerInvariants.SolventRun`).
- A non-reissuable asset can be minted again once all of it is burned
  (`ClosedAssets.MintAcceptedExactly`, `ClosedAssets.BurningReopens`).
- `PayWordPayee::accept` has already moved when valuing the token overflows
  (`PayWord.PayWordPayee.Accept`).
- `Purse::settle` forfeits the deposit after a dispute whoever published the closure, and a payee can
  publish one that its own token then disputes. A closure can be disputed if and only if it claims
  less than was spent (`Forfeits.ContestedExactly`), so from the first tranche on the payee alone can
  take the whole deposit, and before it cannot (`Forfeits.WholeDepositExactly`).
- A recovery may install a device whose id is revoked; it then cannot act
  (`Histories.RecoveryRestores`).
- The branch of `NameBook::reveal` that is called unreachable is reachable, because `commit`
  files whatever digest it is given: `NameClaims.FiledDigestBlocks` is the family of inputs,
  `NameClaims.RevealedExactly` the condition.

## Model

| member | source | states |
|---|---|---|
| `Runs.VanIsConserved` | vanargand-state/src/ledger.rs:521-566 | Over every run of transactions and housekeeping in which no conviction seizes a margin, balances + bonds + VAN deposits + burned + pot is unchanged. |
| `Runs.RunConserves` | vanargand-state/src/ledger.rs:521-566 | Over every run the value of each asset changes by exactly the mints, burns and seized margins of its accepted transactions. |
| `Runs.ConservesVanExactly` | vanargand-state/src/ledger.rs:857-883 | One transaction conserves VAN if and only if it does not convict an account whose `nomad_margin` is non-zero; `nomad_set` never debits that margin, so its payout is new money. |
| `Margins.ConvictionAcceptedExactly` | vanargand-state/src/ledger.rs:857-935 | On a solvent ledger a conviction is accepted if and only if it is admissible, the fee can be paid, the accused device is registered, its two signed transactions of one slot check out, that slot was not punished before, the lane is not at its end, and the halves of the margin fit in the burned total and in the denouncer's balance. |
| `Margins.ConvictionCreatesVan` | vanargand-state/src/ledger.rs:857-883 | An accepted conviction raises the total of VAN by exactly the accused's `nomad_margin`. |
| `Scenes.VanCanGrow` | vanargand-state/src/ledger.rs:1111-1125 | The failing input: from a genesis of 200 VAN an account declares any positive margin, its device equivocates and is convicted, and the total of VAN has grown by the margin; for any accounts, keys, evidence, hashes and signatures under which the evidence checks out. |
| `Conservation.TransactionConserves` | vanargand-state/src/ledger.rs:659-782 | Every accepted transaction of every kind, fee included, changes the value of every asset by its declared flow and nothing else. |
| `HousekeepingValue.HousekeepingConserves` | vanargand-state/src/ledger.rs:1071-1080 | Settling all elapsed channels conserves every asset. |
| `LedgerInvariants.SolventRun` | vanargand-state/src/ledger.rs:402-413 | Over every run without a seized margin each asset's supply stays the sum of its balances and deposits, 3·fees ≤ 10·(burned + pot), tickers stay an index, VAN stays under the cap, and housekeeping at any height succeeds. |
| `LedgerInvariants.HousekeepingNeverFails` | vanargand-state/src/ledger.rs:1071-1080 | In a ledger whose supplies agree and whose VAN is under the cap, paying out elapsed channels never overflows. |
| `Halts.HousekeepingSucceedsExactly` | vanargand-state/src/ledger.rs:1045-1080 | On any ledger housekeeping succeeds if and only if every account's balance of every asset and all that the due channels owe it together fit in 64 bits. |
| `Halts.FinalityStops` | vanargand-node/src/validate.rs:314-503 | If a pending closure claims all there is to claim, its payer has no room for what it gets back, and neither party has a device or a guardian, then along every chain of valid blocks, whatever they carry, it stays so and no header refers to a finalised height at which its window has run out. |
| `Standstill.RunEndsDoomed` | vanargand-state/src/ledger.rs:521-917 | Such a ledger is reached from a genesis: seven transactions, all accepted, open and close a channel, seize two margins near 2^64 and revoke a device. |
| `Standstill.FinalityCanStop` | vanargand-state/src/ledger.rs:1071-1080 | After that run no chain of valid blocks ever refers to a finalised height 17 280 or more past the closure's. |
| `Overflow.NothingOverflows` | vanargand-state/src/ledger.rs:521-566 | In a solvent ledger a transaction fails with overflow only if what it names is by itself too large (fee plus amount, a share, the last lane, a seized margin); no balance, bond or counter addition overflows. |
| `Genesis.GenesisIsSound` | vanargand-state/src/ledger.rs:315-328 | A ledger of founding accounts (VAN only, devices on distinct lanes below the next, unspent shares within the credit), with empty books and no more VAN than the cap, meets every invariant the theorems about runs and chains start from. |
| `Genesis.RunsFromGenesis` | vanargand-state/src/ledger.rs:521-566 | From such a genesis every run keeps lanes and offline shares sound, and, as long as no margin is seized, the ledger solvent and housekeeping possible at any height. |
| `Genesis.ChainsFromGenesis` | vanargand-node/src/validate.rs:314-503 | The same of every chain of valid blocks, whose channels stay sound as well. |
| `Acceptance.TransferAcceptedExactly` | vanargand-state/src/ledger.rs:521-683 | On a solvent ledger a transfer of any asset is accepted if and only if it is admissible, the signer can pay the fee, then the amount (a proposer counts its own share of the fee), and its lane is not at its end. |
| `Admission.AdmittedExactly` | vanargand-state/src/ledger.rs:585-657 | Envelope, authority and offline ceiling pass, returning the outlay offline and 0 otherwise, if and only if the version is 1, the chain is the block's, a bound on the finalised height has not passed, an offline block carries one of the three kinds it may, the device is registered under the account, unrevoked, on its own lane and at its next sequence, fee and outlay fit in 64 bits, and offline the outlay is at most what is left of the device's share. |
| `Admission.AppliedWasAdmissible` | vanargand-state/src/ledger.rs:521-657 | So every accepted transaction, on any ledger, was admissible in those terms. |
| `Acceptance.AcceptedExactly` | vanargand-state/src/ledger.rs:521-782 | All 21 kinds: on a solvent ledger a transaction is accepted if and only if it is admissible, the signer holds the fee, the signer is entitled to what the kind asks once the fee is settled (`Acceptance.Entitled`, kind by kind: balances, roles, books, windows, tokens, evidence), and its lane is not at its end. |
| `Custody.OnlyTheSignerPays` | vanargand-state/src/ledger.rs:521-782 | Across any accepted transaction no account but the signer's loses any asset, and the signer's loses at most the fee and what the kind declares. |
| `Custody.BalancesMoveExactly` | vanargand-state/src/ledger.rs:521-782 | Across any accepted transaction each account's balance of each asset moves by exactly the proposer's 70 hundredths of the fee, what the kind brings that account, and what the kind takes from its signer; bonds and margins likewise. |
| `Custody.HousekeepingPaysExactly` | vanargand-state/src/ledger.rs:1045-1080 | Housekeeping adds to each balance exactly what the due channels owe that account in that asset, and moves nothing else. |
| `Amounts.FeeShares` | vanargand-types/src/amount.rs:278-326 | For every fee the provider's part is 70 hundredths and the pot's 20, each rounded down, and the burn is the rest. |
| `Effects.TotalsMoveExactly` | vanargand-state/src/ledger.rs:659-683 | An accepted transaction raises the pot by 20 hundredths of its fee, the fee counter by the fee, and the burned total by the rest of the fee and the greater half of what a conviction seizes. |
| `Effects.ChannelsChangeExactly` | vanargand-state/src/ledger.rs:942-1012 | It changes at most the one channel it opens, closes or disputes, and that as its kind says, the opened channel's capacity being the whole tranches in the deposit, at most 65 536. |
| `Effects.BooksChangeExactly` | vanargand-state/src/ledger.rs:685-917 | Assets, tickers, names, commitments, recoveries and offences change by exactly the entry the kind writes or removes. |
| `Effects.StandingChangesExactly` | vanargand-state/src/ledger.rs:1111-1179 | Each account's devices, lanes, offline credit and guardians change exactly as the kind says; the signer's lane moves on by one, and offline the outlay is booked on the device. |
| `Accounts.BalancesStored` | vanargand-state/src/account.rs:138-160 | A credit always leaves a stored balance, even of nothing; a debit leaves one exactly when some of it remains. |
| `Authority.LaneBoundForEver` | vanargand-state/src/ledger.rs:1127-1179 | At any two moments of a run, across adding, revoking and recovery, two devices of an account holding the same lane are the same device. |
| `Authority.RevokedNeverActs` | vanargand-state/src/ledger.rs:606-624 | No transaction signed by an identifier that was ever revoked is accepted again, even after a recovery reinstalls it. |
| `Authority.SequencesAreConsecutive` | vanargand-types/src/nonce.rs:198-225 | After any run a lane's next sequence has risen by exactly the number of accepted transactions that used the lane. |
| `Authority.NoSlotTwice` | vanargand-types/src/nonce.rs:208-225 | Once a slot's transaction is accepted, no later transaction of the account in that slot is. |
| `Authority.AcceptedTransaction` | vanargand-state/src/ledger.rs:585-624 | Acceptance implies a registered, unrevoked device on its own lane and the next sequence, and uses up exactly that slot. |
| `Histories.RecoveryRestores` | vanargand-state/src/ledger.rs:808-844 | After an accepted completion the recovered account has exactly one device, and that device may sign if and only if its id was neither revoked before nor among the devices it displaced. |
| `Nomad.SharesStayCovered` | vanargand-state/src/ledger.rs:1111-1170 | Over every run the shares of an account's devices sum to at most its declared credit and no device has spent more than its share. |
| `Nomad.OfflineCeiling` | vanargand-state/src/ledger.rs:575-657 | Over any provisional run between counter resets an account's VAN balance falls by at most what the devices that signed had left of their shares, hence by at most the credit. |
| `Histories.BooksLast` | vanargand-state/src/name_book.rs:208-256 | Over every run a registered name keeps its owner, a ticker its asset, an asset its issuer, ticker, decimals and reissuable flag, and convictions stay recorded. |
| `Histories.RevealFollowsCommit` | vanargand-state/src/name_book.rs:190-256 | An accepted reveal implies, in the same run, an accepted commit by the same account between 10 and 8640 finalised blocks before, and a name nobody owned. |
| `NameClaims.RevealAcceptedExactly` | vanargand-state/src/name_book.rs:208-256 | On a solvent ledger a reveal is accepted if and only if it is admissible, the fee can be paid, the name is long enough and free, the claimant's own commitment to it is filed and between 10 and 8640 finalised blocks old, and the lane is not at its end. |
| `NameClaims.RevealedExactly` | vanargand-state/src/name_book.rs:208-256 | A reveal is refused as uncommitted if and only if the name is long enough and its digest is not filed or is filed by another account. |
| `NameClaims.FiledDigestBlocks` | vanargand-state/src/name_book.rs:190-225 | Once another account has committed to somebody's digest, then after any events before that commitment expires or its filer opens it by a reveal of its own, the rightful claimant's reveal and commit are both refused, with `NoSuchCommitment` and `CommitmentExists`. |
| `NameClaims.PruningFrees` | vanargand-state/src/name_book.rs:263-279 | Housekeeping frees a filed digest if and only if it runs past the digest's expiry. |
| `Histories.RecoveryFollowsApprovals` | vanargand-state/src/recovery.rs:213-296 | An accepted completion implies that at least `threshold` distinct accounts, each a guardian when it approved, approved that key in the run, that nothing ended the recovery since, and that the first approval is 51 840 finalised blocks old. |
| `Histories.NeverPunishedTwice` | vanargand-state/src/slashing.rs:215-228 | After an accepted conviction for a slot, no later transaction of any run convicts the same device of it again. |
| `Histories.ClosedSupplyOnlyFalls` | vanargand-state/src/asset.rs:230-264 | While some of a non-reissuable asset is left throughout a run, its supply only falls. |
| `ClosedAssets.MintAcceptedExactly` | vanargand-state/src/ledger.rs:1014-1041 | On a solvent ledger a mint is accepted if and only if it is admissible, the fee can be paid, the signer is the issuer, the amount is positive and fits, the asset is reissuable or has no supply, and the lane is not at its end; the recipient's balance never overflows. |
| `ClosedAssets.BurnAcceptedExactly` | vanargand-state/src/ledger.rs:1014-1041 | A burn is accepted if and only if it is admissible, the fee can be paid, the signer holds the positive amount of an existing asset, and the lane is not at its end: on a solvent ledger the supply always suffices. |
| `ClosedAssets.BurningReopens` | vanargand-state/src/asset.rs:230-264 | So the promise that a closed float never grows again fails: while some of it is left every mint is refused, but after an accepted burn the issuer's next admissible and payable mint, of any amount, is accepted if and only if that burn took the whole supply. |
| `Ledgers.Ledger.Apply` | vanargand-state/src/ledger.rs:514-519 | Runs on a copy and commits only on success: the ledger reaches exactly the specified state, or is unchanged and the same error is returned; which transactions those are is `Acceptance.AcceptedExactly`, and what they change `Custody.BalancesMoveExactly` and `Effects`. |
| `Ledgers.Ledger.ApplyInPlace` | vanargand-state/src/ledger.rs:521-566 | Envelope, authority, offline ceiling, fee, kind and nonce in the source's order: success, error and whole final state agree with the transition function all run theorems speak of; what envelope, authority and ceiling ask is `Admission.AdmittedExactly`. |
| `Ledgers.Ledger.ApplyKind` | vanargand-state/src/ledger.rs:685-782 | Each of the 21 kinds reaches exactly the state its transition prescribes. |
| `Ledgers.Ledger.ChargeFee` | vanargand-state/src/ledger.rs:659-683 | The fee leaves the payer and reaches burn, pot, counter and proposer as specified, also when payer and proposer are one; the shares are `Amounts.FeeShares`. |
| `Ledgers.Ledger.PurseOpen` | vanargand-state/src/ledger.rs:942-980 | Debit, derived capacity and filing of a channel reach the specified state or error. |
| `Ledgers.Ledger.DeviceAdd` | vanargand-state/src/ledger.rs:1127-1170 | The checks on revoked ids, lanes and offline shares, in order, and the new device. |
| `Ledgers.Ledger.RecoveryFinalise` | vanargand-state/src/ledger.rs:808-844 | All devices move to the revoked set, one new device takes the next lane, the credit drops to zero. |
| `Ledgers.Ledger.PunishAccount` | vanargand-state/src/ledger.rs:857-883 | Evidence check, conviction on record, margin cleared, penalty paid. |
| `Ledgers.Ledger.PunishValidator` | vanargand-state/src/ledger.rs:893-917 | Evidence check against any registered device key, conviction on record, bond cleared, penalty paid. |
| `Ledgers.Ledger.CreditPayout` | vanargand-state/src/ledger.rs:1045-1061 | Both sides of a settlement are credited, a side owed nothing is not touched. |
| `Ledgers.Ledger.SettleElapsedPurses` | vanargand-state/src/ledger.rs:1071-1080 | All due channels leave, payouts are credited and returned in ascending identifier order. |
| `Ledgers.Ledger.PruneExpiredCommitments` | vanargand-state/src/ledger.rs:1088-1090 | Exactly the stale commitments are dropped and counted. |
| `Ledgers.Ledger.SettleNomadCounters` | vanargand-state/src/ledger.rs:575-581 | Every device's offline counter returns to zero and nothing else changes. |
| `Ledgers.Ledger.TotalNativeBalance` | vanargand-state/src/ledger.rs:402-413 | The checked sums return the true total of balances, bonds and VAN deposits, or nothing exactly when it exceeds 64 bits. |
| `Proposals.BuiltBlocksAreAccepted` | vanargand-node/src/propose.rs:187-288 | For every candidate list, a block that `build` returns is accepted by the validator if and only if the parent has an identifier, the finalised height is neither ahead of the block nor behind the parent's, the key is allowed, the signature made over the built header verifies, the reveal is within 720 links and the bonds add up in 64 bits; acceptance ends in exactly the producer's working ledger and the proposer's updated reveal. |
| `Liveness.HonestBlocksAreAccepted` | vanargand-node/src/propose.rs:187-288 | The form with conditions on the inputs alone (`Liveness.CanBuild`): on a solvent ledger a producer that meets them, known before anything is built, always builds a block, for every candidate list, and the validator accepts it and ends in the producer's ledger. |
| `Proposals.CandidatesArePartitioned` | vanargand-node/src/propose.rs:187-324 | Included and declined partition the candidates: each position is declined at most once, in order, and the block holds exactly the others in their order. |
| `Proposals.IncludedRetraceTheDraft` | vanargand-node/src/propose.rs:187-288 | Applying the included transactions one by one retraces the producer's working ledger. |
| `Vouchers.BuiltDeclinesExactly` | vanargand-node/src/propose.rs:187-324 | A built block declines a candidate if and only if, on the ledger after those before it, its kind is not one the rung allows, no registered key vouches for it, or the ledger refuses it; and the reason given fits. |
| `BlockAcceptance.BuiltExactly` | vanargand-node/src/propose.rs:187-288 | Building succeeds if and only if the proposer is registered and on duty, claims a rung a header may claim, a tip not below the parent's and a counter the formula permits, housekeeping succeeds, and the signer signs. |
| `BlockAcceptance.BuiltHeader` | vanargand-node/src/propose.rs:232-288 | The header of a built block, field by field, from the inputs, the parent and the working ledger. |
| `Node.Build` | vanargand-node/src/propose.rs:187-288 | The producing loop returns exactly the specified proposal or error and leaves the ledger it was given alone; what is declined is `Vouchers.BuiltDeclinesExactly`. |
| `Node.Screen` | vanargand-node/src/propose.rs:291-324 | Reads the working ledger only and returns the specified decline reason, the one the first failing screen gives; whether it is a right one is `Vouchers.DeclinedExactly`. |
| `Node.Run` | vanargand-node/src/validate.rs:314-503 | The ten checks in order on ledger and validator set: verdict, report and both final states agree with the block rules; which blocks pass is `BlockAcceptance.AcceptedExactly`. |
| `Node.ValidateAndApply` | vanargand-node/src/validate.rs:295-312 | Applies the block entirely, or leaves ledger and validators as they were; which is `BlockAcceptance.AcceptedExactly`. |
| `Vouchers.BlocksAreSigned` | vanargand-node/src/validate.rs:428-442 | In an accepted block every transaction names an account and one of its devices registered in the very ledger it runs on, the device identifier is the key's, the key's signature over the transaction's digest verifies, and test keys sign only where they are allowed. |
| `Vouchers.ChainsAreSigned` | vanargand-node/src/validate.rs:428-442 | The same of every transaction of every block along a chain. |
| `BlockAcceptance.AcceptedExactly` | vanargand-node/src/validate.rs:314-503 | A block is accepted if and only if it is valid: in place under its parent, by a registered proposer on duty who signed it and revealed a link at most 720 before the last, with the transactions of its root in the rung's grammar, certified if it carries a certificate, every transaction vouched for and accepted in turn, and committing to the ledger, fee ratio and security budget it leads to. |
| `BlockAcceptance.AcceptedLeadsTo` | vanargand-node/src/validate.rs:408-503 | It then leads to the ledger after its last transaction, and moves the proposer's reveal on and nothing else of the validators. |
| `BlockAcceptance.RungExactly` | vanargand-node/src/validate.rs:478-503 | An accepted block reaches the chain rung if and only if it carries a certificate whose distinct voters hold strictly more than two thirds of the weight on duty; the weight reported is theirs. |
| `ChainRuns.ChainIsARun` | vanargand-node/src/validate.rs:314-503 | The ledger of any chain of valid blocks is reached by a run, so every run theorem holds along chains. |
| `ChainRuns.HeadersAdvance` | vanargand-node/src/validate.rs:341-406 | Along any chain the finalised tip and the emission counter never fall, and the counter stays within the emission formula. |
| `ChainRuns.NoEarlySettlement` | vanargand-state/src/purse_book.rs:220-246 | Along any chain a pending closure keeps its window and its claim only rises until the tip has moved 17 280 blocks past its opening, unless closed cooperatively. |
| `ChainRuns.BlockKeepsClosures` | vanargand-node/src/validate.rs:341-503 | After one accepted block every window left is open, and a pending closure disappears only elapsed or cooperatively closed. |
| `ChainRuns.WindowsOpenMidway` | vanargand-node/src/validate.rs:341-503 | Inside an accepted block every window is open whenever one of its transactions runs. |
| `Clock.HousekeepingRemovesElapsed` | vanargand-state/src/purse_book.rs:220-246 | Housekeeping removes exactly the elapsed closures and touches no other channel. |
| `Clock.TransactionMoves` | vanargand-state/src/ledger.rs:942-1012 | Every accepted transaction keeps channels funded, moves no window and only raises claims. |
| `ChainRuns.DisputesLandInTime` | vanargand-bourse/src/purse.rs:332-360 | Every dispute in every block of every chain of valid blocks finds, in the ledger it is applied to, its channel pending with a smaller claim and a window that has not elapsed at the block's finalised height; the chain need only start from sound channels. |
| `Chains.HashChain.Generate` | vanargand-crypto/src/chain.rs:70-91 | Filling the array backwards yields, at every index, the seed hashed forward the right number of times. |
| `Chains.HashChain.Reveal` | vanargand-crypto/src/chain.rs:126-132 | Reveals exactly indices 1 to the length; the value leads to the root in that many links. |
| `Chains.ChainCursor.Advance` | vanargand-crypto/src/chain.rs:176-189 | Moves exactly when the presented value reaches the committed one within the bound, by the least such distance; otherwise nothing changes. |
| `Chains.DistanceExact` | vanargand-crypto/src/chain.rs:176-198 | With a link that never collides or cycles, any link within reach is found at its exact distance. |
| `PayWord.VerifiedExactly` | vanargand-bourse/src/payword.rs:144-156 | A token verifies if and only if its index is positive, bounded, and exactly that many links before the root. |
| `PayWord.PayWordPayer.Spend` | vanargand-bourse/src/payword.rs:229-243 | Spending returns the chain link whose index is the new total, or changes nothing. |
| `PayWord.PayWordPayee.Accept` | vanargand-bourse/src/payword.rs:308-338 | The payee moves exactly when the token is new, within capacity and genuine, keeps the best link as witness, and has moved even when valuing it then overflows; every value and error returned is the specified one. |
| `PayWord.AcceptsExactly` | vanargand-bourse/src/payword.rs:308-338 | Under hostile tokens the cursor test agrees with the distance to the root, so `accepted` always counts links to the root. |
| `ChannelSafety.ClaimsNeverExceedSpent` | vanargand-bourse/src/purse.rs:297-424 | Against an adversary who can only hash forward from revealed links, in every run every accepted claim or dispute is at most what the payer has spent. |
| `ChannelSafety.ClosureOnlyRises` | vanargand-bourse/src/purse.rs:297-401 | From a closure on, claims only rise, the window stands still, and settlement comes after it and pays the claim exactly, or the whole deposit after a dispute. |
| `ChannelSafety.TrueClosureStands` | vanargand-bourse/src/purse.rs:332-401 | A closure published with the true count can never be disputed and settles for exactly what was spent; `Forfeits.ContestedExactly` says when a closure can be disputed. |
| `Forfeits.ContestedExactly` | vanargand-bourse/src/purse.rs:332-360 | A pending closure admits an accepted dispute if and only if it claims less than was spent, whoever published it. |
| `Forfeits.UnderstatedClosureForfeits` | vanargand-bourse/src/purse.rs:297-401 | Whichever party publishes it, a closure that claims less than a later dispute proves, with at most what was spent, ends in a settlement of the whole deposit to the payee, by a run that is given. |
| `Forfeits.NothingSpentNothingPaid` | vanargand-bourse/src/purse.rs:297-401 | With nothing spent, in every run without a payment, every settlement after a closure returns the whole deposit to the payer. |
| `Forfeits.WholeDepositExactly` | vanargand-bourse/src/purse.rs:377-401 | In an open channel with a deposit and a tranche spent, the payee's closure for nothing, a dispute with the first tranche, the window and settlement leave the payee the whole deposit; with nothing spent no run without a payment does, cooperative closure apart. |
| `ChannelSafety.PayeeIsMadeWhole` | vanargand-bourse/src/watchtower.rs:137-149 | One inspect-then-dispute with the payee's best genuine token before settlement guarantees at least that token's full value, whatever happens before or after, cooperative closure excepted. |
| `ChannelSafety.StaleClosureIsContested` | vanargand-bourse/src/purse.rs:297-401 | A concrete five-move run of the adversarial game: a stale closure is disputed and the whole deposit goes to the payee, so the hypotheses of the theorems above can be met. |
| `Watchtowers.Watchtower.Observe` | vanargand-bourse/src/watchtower.rs:108-119 | Keeps a token only if it beats the held one; the held index never falls. |
| `Watchtowers.Watchtower.Inspect` | vanargand-bourse/src/watchtower.rs:137-149 | Advises a dispute with the held token exactly when it beats a pending claim. |
| `Watchtowers.AdviceIsRight` | vanargand-bourse/src/watchtower.rs:137-155 | Of a held token that verifies within the capacity, the watchtower objects if and only if the ledger would take the token as a dispute; it is quiet if and only if nothing is pending, and never objects without a token. |
| `PurseBooks.PurseBook.SettleElapsed` | vanargand-state/src/purse_book.rs:220-246 | Removes every due channel; payouts come in ascending order of identifiers. |
| `PurseBooks.PurseBook.CloseCooperative` | vanargand-state/src/purse_book.rs:149-171 | A party's exact split removes the channel and pays it; anything else changes nothing. |
| `Smt.ProvableExactly` | vanargand-state/src/smt.rs:122-173 | Against the root of a tree, some proof verifies a key with a value or its absence if and only if the map says exactly that. |
| `Smt.ProofVerifies` | vanargand-state/src/smt.rs:265-325 | The proof the tree makes for any key verifies. |
| `Smt.NothingElseVerifies` | vanargand-state/src/smt.rs:122-173 | Whatever proof verifies states what the map holds. |
| `Smt.EqualRoots` | vanargand-state/src/smt.rs:257-297 | Equal roots imply equal maps. |
| `Tries.RootIsTrie` | vanargand-state/src/smt.rs:257-340 | The root is that of the binary trie over the keys' bits, defined on the map alone: nothing is zero, one key its leaf, several a node over the keys whose next bit is unset and those whose next bit is set. |
| `Smt.SplitIsRight` | vanargand-state/src/smt.rs:332-334 | In a sorted slice sharing a prefix, the partition point separates unset from set bits at every depth. |
| `Smt.PrefixComesFree` | vanargand-state/src/smt.rs:122-201 | Against a genuine root a verifying leaf necessarily lies on the key's path: there the explicit prefix test never decides. |
| `Smt.ComputeRoot` | vanargand-state/src/smt.rs:122-167 | The upward loop computes the root the proof implies, deepest sibling first, and refuses the same proofs. |
| `Smt.SparseMerkleTree.Prove` | vanargand-state/src/smt.rs:265-271 | Walking down and pushing siblings yields a proof that verifies for present and absent keys. |
| `Smt.SparseMerkleTree.Root` | vanargand-state/src/smt.rs:257-261 | The root is the one of the sorted entries of the map. |
| `Bits.BitsFollowOrder` | vanargand-crypto/src/hash.rs:205-212 | Among keys sharing their first d bits, lexicographic order puts those with bit d unset first. |
| `Bits.PrefixIsBits` | vanargand-crypto/src/hash.rs:205-212 | Two keys share their first d bits if and only if those bits spell the same number. |
| `Bits.OrderIsNumeric` | vanargand-crypto/src/hash.rs:205-212 | Byte-wise lexicographic order of digests is the order of the numbers they spell. |
| `StateRoot.OneRootOneLedger` | vanargand-state/src/ledger.rs:421-463 | Two ledgers with the same state root are equal in every field, provided the state hash does not collide on the preimages in use and each ledger is countable. |
| `StateRoot.ProofsSayTheState` | vanargand-state/src/ledger.rs:461-495 | A light-client proof of a record verifies against the state root if and only if the ledger holds that record, or holds none when the proof says so. |
| `StateRoot.PreimagesDiffer` | vanargand-state/src/keys.rs:67-136 | No two state keys have one preimage: namespaces never meet. |
| `Layouts.KeysSpelled` | vanargand-state/src/keys.rs:36-136 | What each state key hashes, byte by byte: the length of its namespace, the namespace's letters, the identifier or name. |
| `StateTrees.BuildTree` | vanargand-state/src/ledger.rs:421-457 | Filling the tree group by group yields exactly the ledger's key–value map. |
| `StateTrees.ProveRecord` | vanargand-state/src/ledger.rs:467-495 | The proof produced for any record verifies with what the ledger holds. |
| `MerkleList.RootDeterminesList` | vanargand-types/src/merkle.rs:44-73 | Lists of any lengths with one root are equal. |
| `MerkleList.ListProof` | vanargand-types/src/merkle.rs:100-124 | There is a proof for every position and no other, and it recomputes the root through promoted levels. |
| `MerkleList.ProofStartsInTheList` | vanargand-types/src/merkle.rs:133-143 | Any proof that reaches a list's root starts from an item of that list. |
| `Vectors.SmallLists` | vanargand-types/src/merkle.rs:44-73 | The trees of no, one, two and three items, the third promoted. |
| `Codec.VarintExactly` | vanargand-types/src/codec.rs:222-459 | `read_varint` accepts a byte string if and only if it is `write_varint` of the value returned, for every u64. |
| `Layouts.VarintIsShortest` | vanargand-types/src/codec.rs:222-232 | A number is written as the one shortest run of bytes that spells it, seven bits a byte, low bits first. |
| `Codec.Bijective` | vanargand-types/src/codec.rs:147-169 | For every lawful codec, decoding succeeds exactly on the encodings of valid values within the size limit. |
| `Codec.PrefixFree` | vanargand-types/src/codec.rs:147-169 | Encodings are uniquely decodable even followed by other bytes. |
| `Codec.SetOfLawful` | vanargand-types/src/codec.rs:553-573 | Reading a set accepts exactly the strictly ascending encodings of sets. |
| `Codec.MapOfLawful` | vanargand-state/src/account.rs:229-299 | The same for maps with ascending keys. |
| `Codec.MapDecodesAsList` | vanargand-state/src/account.rs:229-299 | Reading entries one at a time and refusing the first that does not ascend accepts the same inputs, with the same map and rest, as reading all entries and then checking their order. |
| `Codec.OptionalLawful` | vanargand-types/src/codec.rs:529-535 | The same for options, which cost one nesting level only when present. |
| `Codec.TextLawful` | vanargand-types/src/codec.rs:516-526 | The same for text: exactly the length-prefixed well-formed UTF-8 strings. |
| `Scalars.TextExactly` | vanargand-types/src/codec.rs:516-526 | Bytes count as text if and only if they are the encodings of some Unicode scalar values, as section 3 of RFC 3629 defines them, one after another. |
| `Records.AccountBijective` | vanargand-state/src/account.rs:196-299 | Bytes decode to an account if and only if they are its encoding and its collections are within the limits. |
| `Records.PurseBijective` | vanargand-bourse/src/purse.rs:428-480 | The same for channels, for every channel. |
| `Layouts.AccountInOrder` | vanargand-state/src/account.rs:195-225 | The bytes of an account are its fields' in the order written. |
| `Layouts.DeviceInOrder` | vanargand-state/src/account.rs:50-57 | The bytes of a device: key, lane, share, spent. |
| `Layouts.PurseInOrder` | vanargand-bourse/src/purse.rs:428-464 | The bytes of a channel: payer, payee, asset, deposit, root, tranche value, capacity, expiry, closure. |
| `Wire.Encoder.WriteVarint` | vanargand-types/src/codec.rs:222-232 | The loop appends the shortest seven-bit form. |
| `Wire.Decoder.ReadVarint` | vanargand-types/src/codec.rs:424-459 | The loop over value and shift agrees with the varint grammar on value, position and every error. |
| `Wire.Decoder.ReadSeqLen` | vanargand-types/src/codec.rs:582-602 | Counts beyond the limit or the remaining bytes are refused. |
| `RecordWire.EncodeAccount` | vanargand-state/src/account.rs:196-225 | Writing field by field with ascending collections yields the account's encoding. |
| `RecordWire.EncodePurse` | vanargand-bourse/src/purse.rs:454-464 | Writing field by field yields the channel's encoding. |
| `RecordReads.DecodeAccount` | vanargand-state/src/account.rs:229-299 | The decoder's loops return an account if and only if the input is that account's encoding within the limits, and otherwise the fault the grammar meets first. |
| `RecordReads.ReadBalances` | vanargand-state/src/account.rs:229-247 | The balance loop agrees with the map grammar on value, position and every error: ascending keys, entry by entry. |
| `RecordReads.DecodePurse` | vanargand-bourse/src/purse.rs:468-480 | The decoder returns a channel if and only if the input is its encoding within the size limit, and otherwise the fault the grammar meets first. |
| `Certificates.QuorumsIntersect` | vanargand-consensus/src/certificate.rs:123-183 | Two certificates that finalise headers under one committee and slot share voters with strictly more than a third of the active weight, each with valid signatures on both headers. |
| `Certificates.SignedWithinActive` | vanargand-consensus/src/certificate.rs:123-174 | The verified weight is the distinct voters' weight and at most the weight on duty. |
| `Certificates.FinalityIsExact` | vanargand-consensus/src/certificate.rs:181-183 | For any drawn committee the saturating finality test is exactly 3·signed > 2·active. |
| `Certificates.VoteCountsExactly` | vanargand-consensus/src/certificate.rs:142-172 | Under a drawn committee a vote counts if and only if its member is on duty and registered, its key is allowed here, and that key's signature over the header's digest verifies; it then counts the member's drawn weight. |
| `Certificates.CertificateVerifiesExactly` | vanargand-consensus/src/certificate.rs:123-174 | A certificate verifies if and only if it names the header, its members ascend strictly, and every vote qualifies; the total never overflows. |
| `Certificates.Verify` | vanargand-consensus/src/certificate.rs:123-174 | The single pass over the votes returns the weight or the first fault, as specified by position; which certificates pass is `Certificates.CertificateVerifiesExactly`. |
| `Committees.CommitteeIsDrawn` | vanargand-consensus/src/committee.rs:58-89 | For every seed the committee has exactly min(192, eligible) members when the eligible weight fits in 128 bits and none otherwise, all distinct and eligible. |
| `Committees.CandidatesExactly` | vanargand-consensus/src/validator.rs:161-173 | The candidates are exactly the registered validators of positive weight, each with its weight. |
| `Committees.RoundIsDrawn` | vanargand-consensus/src/committee.rs:58-89 | In every round the draw takes the candidate on whose stretch of the cumulative weights, among those not yet drawn, the round's random number modulo their total weight falls. |
| `Committees.DrawnByWeight` | vanargand-consensus/src/committee.rs:180-192 | Of the points below the remaining total exactly weight-many select a candidate, and the fallback pick is never taken. |
| `Committees.ActivationPermutes` | vanargand-consensus/src/committee.rs:195-209 | The shuffled activation order is a permutation for every seed. |
| `Shuffles.ActivationIsFair` | vanargand-consensus/src/committee.rs:195-209 | Draws and activation orders correspond one to one: two seeds give one order if and only if they draw the same places, and every order is the one that some draws give. |
| `Committees.OnDutyExactly` | vanargand-consensus/src/committee.rs:144-163 | A seat is on duty exactly when its position is less than 64 places ahead of the sliding offset. |
| `Committees.RosterIsFair` | vanargand-consensus/src/committee.rs:144-163 | In any n consecutive blocks each of n members is on duty exactly min(64, n) times. |
| `Committees.Draw` | vanargand-consensus/src/committee.rs:58-89 | The drawing loop without replacement returns the specified committee. |
| `Emission.PermittedThrough` | vanargand-consensus/src/emission.rs:158-179 | For every u64 epoch the closed form equals the sum of per-epoch emissions; neither saturation nor the final clamp ever acts. |
| `Emission.EmittedWithinCap` | vanargand-consensus/src/emission.rs:138-151 | All that is ever emitted stays within the cap. |
| `Emission.HalvesExactly` | vanargand-consensus/src/emission.rs:129-151 | The first period emits fifty million VAN and each later one half of the one before, rounded down. |
| `Emission.EmittedEventually` | vanargand-consensus/src/emission.rs:129-179 | From the end of the 64th period on, all of the cap has been emitted but less than three thousandths of a VAN. |
| `Emission.CounterPassesExactly` | vanargand-consensus/src/emission.rs:196-212 | A counter passes if and only if it did not fall and the formula permits it; the cap check never decides. |
| `Leak.LeakRestoresFinality` | vanargand-consensus/src/leak.rs:77-171 | From any leak state on a fixed roster, if signers of any positive weight keep signing, finality is restored after at most 10 080 observations and stays restored. |
| `Leak.CommitteesHaveRosters` | vanargand-consensus/src/committee.rs:144-163 | The members on duty of any drawn committee, at any block, are a roster to which that theorem applies. |
| `Leak.SilenceOnlyLowers` | vanargand-consensus/src/leak.rs:112-123 | Effective weight never rises with silence and never exceeds the weight. |
| `Leak.SilenceCosts` | vanargand-consensus/src/leak.rs:112-118 | Silence costs nothing for 1 440 observations, one part in 8 640 for each one more, and everything from 10 080 on. |
| `Leak.EffectiveExactly` | vanargand-consensus/src/leak.rs:120-123 | The effective weight is that part of the weight, rounded down. |
| `Leak.ObservedMember` | vanargand-consensus/src/leak.rs:77-86 | A signer's counter resets in full, a silent member's rises by one. |
| `Leak.SilenceNeverFinalises` | vanargand-consensus/src/leak.rs:162-171 | An empty signer set never finalises. |
| `Validators.ValidatorSet.Budget` | vanargand-consensus/src/validator.rs:186-189 | The checked fold over ascending validators returns a third of the sum of bonds, rounded down, or nothing exactly when the sum does not fit. |
| `Validators.BudgetIsAThird` | vanargand-consensus/src/validator.rs:186-189 | The security budget exists if and only if the bonds' sum over all validators, in any order, fits in 64 bits, and is then a third of it rounded down. |
| `Weights.WeightExactly` | vanargand-consensus/src/weight.rs:138-142 | The weight is the bond times a multiplier from one to two, in thousandths, rounded down. |
| `Checksums.CheckExactly` | vanargand-types/src/bech32.rs:96-110 | After any prefix exactly one choice of six symbols reaches a given checksum. |
| `Checksums.BurstIsSeen` | vanargand-types/src/bech32.rs:96-110 | Symbol strings that agree outside six consecutive places and have one checksum are equal. |
| `Bech32.DecodesExactly` | vanargand-types/src/bech32.rs:176-282 | Text decodes to a prefix and data if and only if it is not of mixed case and, lower-cased, is what encoding them gives; so decoding inverts encoding and encoding inverts decoding. |
| `Bech32.EncodedComesBack` | vanargand-types/src/bech32.rs:176-282 | Whatever encoding returns, decoding takes back, for prefixes that contain a separator too. |
| `Bech32.EncodesExactly` | vanargand-types/src/bech32.rs:176-221 | Encoding succeeds if and only if the prefix is not empty and of printable characters without capitals, the data are five-bit, and the text has at most 90 characters. |
| `Vectors.ShortestDecodes` | vanargand-types/src/bech32.rs:312-330 | The BIP 350 string a1lqfn3a decodes to the prefix a and no data. |
| `Vectors.OlderIsTold` | vanargand-types/src/bech32.rs:268-273 | The string a12uel5l, valid under the older checksum, is refused as the wrong variant. |
| `Bech32.BurstIsRejected` | vanargand-types/src/bech32.rs:227-282 | Valid text changed anywhere within six consecutive data characters no longer decodes. |
| `Bech32.SlipsAreRejected` | vanargand-types/src/bech32.rs:227-282 | Replacing one data character, or swapping two neighbours, is always rejected. |
| `Bech32.Encode` | vanargand-types/src/bech32.rs:176-221 | The encoding loops return the specified text or the specified error in the source's order. |
| `Bech32.Decode` | vanargand-types/src/bech32.rs:227-282 | The decoding loops return the specified parts or the specified error in the source's order, with the first offending character. |
| `Bech32.ComputePolymod` | vanargand-types/src/bech32.rs:96-110 | The nested loop over symbols and generator words computes the linear step function. |
| `BitGroups.PaddingIsExact` | vanargand-types/src/bech32.rs:134-170 | Converting 8→5 with padding and 5→8 without are inverse in both directions: any other padding is refused. |
| `BitGroups.OneByteRegrouped` | vanargand-types/src/bech32.rs:134-170 | For every byte: the high five bits first, then the low three and two zeros. |
| `BitGroups.ConvertBits` | vanargand-types/src/bech32.rs:134-170 | For all widths up to eight and all values the masked accumulator loop returns the specified groups or padding error: values wider than the width they are read at overlap their predecessors, values that fit are regrouped exactly. |
| `Addresses.ParsesExactly` | vanargand-types/src/address.rs:158-194 | Text parses to an address if and only if, cases aside, it is that address printed. |
| `Addresses.PrintedComesBack` | vanargand-types/src/address.rs:147-194 | A printed address parses back on its own network, in either case, and is refused by name on the other. |
| `Addresses.AlwaysPrints` | vanargand-types/src/address.rs:158-169 | Printing never fails and gives 63 characters on the main network and 64 on the test network. |
| `Addresses.PrintedBegins` | vanargand-types/src/address.rs:158-169 | A printed address begins with van1q on the main network and tvan1q on the test network. |
| `Addresses.PrintsApart` | vanargand-types/src/address.rs:158-194 | Different addresses never print alike. |
| `Addresses.SlipsNeverPay` | vanargand-types/src/address.rs:158-194 | A printed address with one character mistyped or two neighbours swapped after the separator is never accepted. |

## Left out

- Proposals.BuiltBlocksAreAccepted: the conditions are stated, not met by construction; among them are a parent whose finalised height is not above the tip the inputs name, a key the parameters allow, a signature that verifies over the built header, and a reveal within 720 links. `Liveness.HonestBlocksAreAccepted` replaces them by conditions on the inputs.
- ChannelSafety.PayeeIsMadeWhole: cooperative closure is excluded, because the counterparty's signature on it is not checked by the ledger; nothing is promised to a payer whose payee publishes the closure.
- Runs.VanIsConserved: runs that seize a non-zero margin are excluded; `Runs.RunConserves` gives the exact difference for them.
- StateRoot.OneRootOneLedger: `StateRoot.Apart`, no collision among the preimages the two ledgers use, is a hypothesis.
- RecordReads.DecodeAccount: errors carry no offending word or index, and order is compared on decoded identifiers, which for 32-byte digests is the order of their bytes.
- MerkleList.ProofStartsInTheList: the index of a list proof is not authenticated by the root, and nothing is claimed about it.
- Bech32.DecodesExactly: text is the bytes of its UTF-8 form.
- Committees.CommitteeIsDrawn: the seed's draws are an arbitrary function; nothing statistical is claimed about them.
- Records in maps are values: an edit through a mutable reference is a map update, so aliasing is not modelled.
- Real cryptography: BLAKE3, ML-DSA, ML-KEM, key zeroing and constant-time comparison.
- The seed of the draw (vanargand-consensus/src/seed.rs) and the delay function (vanargand-consensus/src/vdf.rs).
- Wire forms of transactions, blocks, certificates and sparse-tree proofs; transaction and block identifiers are functions of the values.
- Error texts, accessors, hexadecimal forms and the façade crates.
- The unbonding delay, which the ledger leaves to consensus code that only names it, and auctions of short names, which are refused.
