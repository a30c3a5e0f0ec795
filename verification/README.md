# Custody vaults: lineages, wallets and signatures

This project models the core of a web application for m-of-n custody vaults and proves what it
keeps over every run.

A vault is a *lineage* of federation versions. Members migrate it to a new composition: the
successor is created `pending`, the funds are swept to it, and the broadcast of the sweep flips the
two versions. A chain reorganisation can take the sweep's confirmation back, so lineage passes latch
and revert what was recorded. Cosigners sign proposals one by one; the partial signatures are
archived and merged until the threshold is met. Each version has a wallet that lives in a cache and
is persisted as one aggregate changeset.

## Layout

| module | subject |
|---|---|
| `Wrappers`, `Primitives`, `Texts` | option and result types, bytes, hex and outpoints, string operations |
| `Schema`, `Transitions`, `Steps` | the rows, each table change as a function, each request as one step; `Run` is any interleaving |
| `Database`, `Handlers` | the tables and the request handlers as classes, each method proved equal to its function |
| `LineageInvariant`, `LineageRuns`, `LineageTheorems`, `CancelEffects` | the inductive invariant, its preservation, and what follows for versions, migrations and funds |
| `RequestEffects` | what each request does to the tables, column by column |
| `Reconcile`, `ReconcileTheorems`, `DualSweeps`, `SweepTexts` | the lineage pass with its loops, what a history of passes amounts to, the two sweeps of a dual-chain migration, and the txids recorded as text |
| `Psbts`, `SigningTheorems`, `SignatureValues`, `ArrivalOrders` | combining partial signatures (BIP 174), archive and threshold, the value of every signature and origin, submissions in every order |
| `Bip67`, `TrezorRequest` | key order (BIP 67), the request for a Trezor |
| `ChangeSets`, `Custody`, `CustodyTheorems`, `CustodyContents` | live wallet, aggregate and row; merging and applying changesets; what each operation takes in and what later runs keep |
| `Canonical`, `CanonicalWalks` | canonical transactions and the coins they leave; the walk with and without one transaction |
| `ResweepTheorems`, `ResweepWitnesses` | eviction of a stranded sweep, the re-sweep, the re-sweep of a re-sweep, and wallets in which they fail |
| `LiquidActivity`, `BitcoinAddresses` | address and asset totals by one-pass maps and by scans |
| `Descriptors`, `DescriptorRoundTrips`, `DescriptorAcceptance`, `RegNames` | descriptor and key-origin text, exactly which texts are accepted, device registration names |
| `ConcreteRuns` | short runs from the empty database that reach the failing cases |

A request is one atomic step. Identifiers, transactions, wallet answers and the outcome of a network
call are parameters of the step, so a theorem over all runs covers all of them. `Run(EMPTY, events)`
is a reachable state of the tables.

## Findings

Some statements of the code's own documentation do not hold. Each is proved with its exact condition.

* **A cancelled migration freezes its lineage.** The comment at `src/handlers/migrations.rs:484-485`
  says that cancelling frees the lineage. The abandoned target keeps its row, and the constraint
  `UNIQUE (lineage_id, version_index)` (`migrations/0005_federation_versions.sql:31-32`) then refuses the
  next migration, which wants the same index. `CancelEffects.OpenSucceedsIffNeverMigrated` gives
  the exact condition, `AbandonedTargetFreezesLineage` shows that the freeze is permanent, and
  `CancelDoesNotFreeTheLineage` is a run of three requests that shows it.
* **A cancel after the flip closes the re-sweep.** `cancel_migration` does not look at the
  migration's state, so an enacted migration can become `cancelled`; the funds stay safe, but
  `enacted_migration_for_base` then finds nothing. `CancelEffects.ResweepPossibleIffNotCancelled` is
  the exact condition, and `ConcreteRuns.LateCancelStrandsTheBase` a run of seven requests that ends
  with a reverted base that can no longer be re-swept.
* **Only one sweep of a dual-chain migration is tracked for reorgs.** A broadcast sweep is recorded
  exactly when its migration is still proposed (`DualSweeps.SweepRecordedIff`). From then on the base
  follows the confirmations of that sweep alone (`FirstSweepDecides`, `OtherSightingsAreIgnored`). In
  `ConcreteRuns.SecondSweepReorgIsMissed` the second sweep is confirmed and reorged out, and no row
  changes.
* **Arrival order matters once the threshold is met.** A submission that completes a proposal shuts
  out the later ones, so their signatures may never be merged. `ArrivalOrders.ManyArrivalsCommuteIff`
  is the exact condition for any number of submissions: all orders merge alike if and only if every
  choice of them that completes the proposal leaves nothing new in the others
  (`SigningTheorems.TwoArrivalsCommuteIff` spells it out for two). `ConcreteRuns.OrderDecidesSignatures`
  reaches a proposal whose two orders end differently. Given the archive, the merged set is always the same.
* **A drain preview after a failed build loses the revealed change address.** A failed spend leaves
  its reveal staged, and the preview drops whatever is staged. Custody survives exactly when the
  stage adds nothing to the aggregate, component by component (`CustodyTheorems.PreviewKeepsCustodyIff`);
  after a failed spend that revealed a new address it never does (`PreviewAfterFailedSpendLoses`), and
  the row does not learn of the address later (`LostRevealStaysLost`).
* **A re-sweep that cannot be built leaves the sweep evicted** in the cached wallet, because the
  handler returns before it drops the cache entry (`src/handlers/migrations.rs:890-896`). See
  `CustodyTheorems.FailedResweepKeepsCustodyIff` and `EvictionLingers`.
* **The re-sweep displaces the sweep only if the wallet without the sweep has one of its coins unspent.**
  `ResweepTheorems.ResweepDisplacesIff` is the exact condition, in every wallet: no anchor holds the
  sweep in the later walk, and some owned coin it spent is funded, and unspent, by what is canonical
  without it. Three things break it. An anchor left over from a disconnected block keeps the
  unconfirmed sweep canonical (`ResweepWitnesses.StaleAnchorHoldsTheSweep`), a canonical child brings it
  back (`HeirHoldsTheSweep`), and a rival that is canonical once the sweep is gone keeps its coins
  (`ResweepTheorems.RivalKeepsItsCoins`, `ResweepWitnesses.RivalTakesTheCoin`).
* **A re-sweep of a re-sweep gets none of the first sweep's coins.** The reloaded wallet still
  counts the first sweep as canonical, so evicting an unanchored re-sweep takes the wallet back to before
  it, and what is left to spend is what was unspent then: none of the coins of the first sweep
  (`ResweepTheorems.ResweepOfResweep`, for the wallets of `RunIsRecalled`).
* **`splitTopLevelCommas` loses an empty last part**, and nothing else
  (`DescriptorRoundTrips.SplitInvertsJoin`, `JoinInvertsSplit`).
* **`unwrapDescriptor` peels four wrappers**, not all (`DescriptorRoundTrips.UnwrapPeelsFourIff`).

## What is taken from outside

The Bitcoin wallet library (BDK), the Liquid wallet library and the `emvault` crate are not part of
this model. Of them it assumes: a change to a wallet applies a changeset and stages the same one; a
rebuild answers with a complete changeset; a drain selects every unspent owned coin of the canonical
set and stages nothing; a failed spend or sync may already have staged something; the canonical set
is found by walking the supported transactions in some order and taking each one with its ancestors
unless a coin would be spent twice, where a transaction is supported by an anchor on any block, of the
current chain or not, or by a mempool sighting later than its last eviction; combining PSBTs is the
union of the signatures and of the key origins of every input, the partial's entry deciding where
both have one; and a PSBT can be finalised exactly when every input carries
a threshold of signatures by keys of the descriptor. Key derivation is an injective function.

## Model

| member | source | states |
|---|---|---|
| `Database.Tables.InsertFederationWithMembers` | src/db.rs:307-358 | inserting a federation adds exactly its version-0 row, active, as the root of its own lineage; a taken id changes nothing |
| `Database.Tables.CreatePending` | src/db.rs:1480-1555 | the three-statement transaction stores a pending target and a proposed migration, or refuses on the in-flight index or on a taken version index and rolls everything back |
| `Database.Tables.SetFederationStatus` | src/db.rs:1233-1244 | changes one version's status, unless the index on active versions refuses a second active version in the lineage |
| `Database.Tables.SetMigrationStatus` | src/db.rs:1327-1340 | changes one migration's status |
| `Database.Tables.EnactTransition` | src/db.rs:1410-1433 | supersede, activate, enact, in the order the one-active index needs; a refused activation rolls everything back; nothing else changes |
| `Database.Tables.CancelMigrationRow` | src/db.rs:1760-1785 | sets the migration cancelled whatever its state and abandons the target only while it is pending |
| `Database.Tables.CurrentVersionForLineage` | src/db.rs:1084-1095 | returns an active version of the lineage, or none if there is none |
| `Database.Tables.InflightMigrationForLineage` | src/db.rs:1307-1320 | returns a migration of the lineage that is in flight, or none exactly if there is none |
| `Database.Tables.EnactedMigrationForBase` | src/db.rs:1635-1647 | returns an enacted migration of the base, or none if there is none |
| `Database.Tables.MigrationEnactmentForProposal` | src/db.rs:1731-1752 | names the migration a broadcast must enact: only for a migration sweep whose migration is still in flight |
| `Database.Tables.ResweepRecompletionForProposal` | src/db.rs:1696-1710 | names the base a broadcast re-sweep completes again: its version, if it is reverted; nothing for any other kind of proposal |
| `Database.Tables.SetComplete` | src/db.rs:987-1002 | records the sweep and leaves the latched height alone |
| `Database.Tables.LatchMigrationSweepHeight` | src/db.rs:1018-1037 | latches a height only into a complete row of the same txid without one |
| `Database.Tables.ReconcileMigration` | src/db.rs:1060-1078 | reverts only a complete row of the same txid with a latched height, clearing txid and height |
| `Database.Tables.LoadLineageVersions` | src/db.rs:964-975 | lists exactly the versions of the lineage, each once, by ascending index |
| `Database.Tables.Insert` | src/db.rs:649-677 | adds one open proposal row, or refuses a taken id |
| `Database.Tables.UpdateProposalPsbt` | src/db.rs:759-776 | replaces PSBT and status of one proposal |
| `Database.Tables.FinalizeProposal` | src/db.rs:782-799 | marks one proposal finalized with its transaction and txid |
| `Database.Tables.MarkProposalBroadcast` | src/db.rs:805-820 | marks one proposal broadcast with the accepted txid |
| `Database.Tables.CancelProposalRow` | src/db.rs:828-838 | withdraws one proposal |
| `Database.Tables.InsertSignature` | src/db.rs:849-869 | archives a signer's first contribution; a second one changes nothing |
| `Handlers.App.GuardMigration` | src/handlers/migrations.rs:926-965 | the two guards pass exactly for an active version of a lineage without a migration in flight; a missing version is not found, any other refusal a bad request |
| `Handlers.App.MigratePost` | src/handlers/migrations.rs:82-476 | a single-chain migration request performs exactly its step, and answers the proposal or the error of the first guard, sweep build or constraint that refuses; without a built sweep nothing changes |
| `Handlers.App.OpenChainSweep` | src/handlers/migrations.rs:232-290 | the sweep of one chain: skipped if unfunded, an error if it cannot be built, else one proposal |
| `Handlers.App.MigrateDualPost` | src/handlers/migrations.rs:148-313 | a dual-chain request performs exactly its step, with an immediate flip when neither chain holds funds, and answers the wanted chain's sweep first, or the error of the first guard, constraint or sweep that fails |
| `Handlers.App.CancelPost` | src/handlers/migrations.rs:491-500 | a cancel request performs exactly its step |
| `Handlers.App.RelayPost` | src/handlers/migrations.rs:752-811 | a relay pays the current version of the source's lineage, from a Bitcoin version that is not current; every refusal is stated, a failed build included |
| `Handlers.App.ResweepPost` | src/handlers/migrations.rs:845-919 | a re-sweep is accepted only for a reverted Bitcoin base with an enacted migration and a current version; every refusal is stated, a failed build included |
| `Handlers.App.RequireStatusIn` | src/handlers/proposals.rs:1194-1203 | passes exactly for the allowed statuses |
| `Handlers.App.LoadProposalIn` | src/handlers/proposals.rs:1166-1203 | loads a proposal in an allowed status; a missing one is not found, any other a bad request |
| `Handlers.App.SubmitPartialPsbt` | src/handlers/proposals.rs:841-935 | a partial PSBT is archived once, merged, probed for the threshold and finalized, exactly as its step (whose columns `SignatureValues.SubmissionByColumns` gives), and the answer is the one for its case: refused, unmergeable, repeated, or accepted with the threshold's verdict |
| `Handlers.App.SubmitSignature` | src/handlers/proposals.rs:727-818 | a submission of either device is the submission of one partial PSBT: the Jade's own, or the one the Trezor's signatures were injected into, which adds only that device's keys; without either nothing changes |
| `Handlers.App.CancelProposalPost` | src/handlers/proposals.rs:988-1012 | only open and signing proposals can be withdrawn |
| `Handlers.App.BroadcastPost` | src/handlers/proposals.rs:1019-1098 | an accepted broadcast performs exactly its step (whose columns `RequestEffects` gives for each kind of proposal), unless the index refuses the flip, when only the proposal is marked |
| `RequestEffects.MigrationSweepFlips` | src/handlers/proposals.rs:1057-1082 | in every reachable state the broadcast of a sweep whose migration is still proposed supersedes the base with its txid, activates the target and enacts the migration, and nothing else; of any other migration it moves nothing |
| `RequestEffects.ResweepCompletes` | src/handlers/proposals.rs:1084-1096 | in every reachable state the broadcast of a re-sweep completes its version again if that is reverted, with the accepted txid and no height, and changes no other version and no migration |
| `RequestEffects.SendOrRelayMovesNothing` | src/db.rs:1696-1710 | the broadcast of a payment or a relay changes no version and no migration, whatever the version it is sent from |
| `RequestEffects.RefusedBroadcast` | src/handlers/proposals.rs:1019-1098 | a broadcast of a proposal that is not finalized, or that the node refuses, changes nothing |
| `ConcreteRuns.ResweepEndsComplete` | src/handlers/proposals.rs:1084-1096 | a run that goes on from a reverted base: propose, sign and broadcast a re-sweep, and the base is complete again with its txid |
| `RequestEffects.OpensIff` | src/db.rs:1480-1555 | a migration can be opened exactly for an active base with nothing in flight, new ids and a free index; it adds exactly the pending successor and the proposed migration |
| `RequestEffects.MigrateByColumns` | src/handlers/migrations.rs:82-476 | a single-chain request opens the migration with one unsigned sweep from base to successor, or changes nothing |
| `RequestEffects.UnfundedByColumns` | src/handlers/migrations.rs:148-313 | a dual-chain request without funds supersedes the base and activates the successor at once, recording no sweep |
| `RequestEffects.FundedByColumns` | src/handlers/migrations.rs:148-313 | a funded one stays proposed with one sweep for every chain up to the first that cannot be opened |
| `RequestEffects.CancelByColumns` | src/db.rs:1760-1785 | a cancel closes the migration, abandons its target only while pending, withdraws its sweeps unless broadcast, and changes nothing else |
| `RequestEffects.ProposalsByColumns` | src/handlers/migrations.rs:752-919 | exactly when a payment, a relay and a re-sweep are stored, and with which version, migration, payee and draft |
| `RequestEffects.WithdrawByColumns` | src/handlers/proposals.rs:988-1012 | withdrawing changes the status only, exactly until the broadcast |
| `RequestEffects.CreateByColumns` | src/db.rs:307-358 | a new federation is the active version 0 of its own lineage |
| `LineageRuns.StepKeeps` | src/db.rs:1264-1266 | every request keeps the lineage invariant, with no guard but those of the code and its indexes |
| `LineageRuns.ReachableInv` | src/db.rs:1264-1266 | every reachable state satisfies the lineage invariant |
| `LineageTheorems.StepAdvances` | src/db.rs:1410-1433 | one request moves version statuses only from pending to active to superseded or from pending to abandoned, and never changes lineage, index or predecessor |
| `LineageTheorems.RunAdvances` | src/db.rs:1410-1433 | the same over any run; broadcast and withdrawn proposals never change |
| `LineageTheorems.BroadcastSweepsPayLiveVersions` | src/handlers/proposals.rs:1019-1098 | in every run a broadcast sweep pays an active or superseded version of its own lineage, then and ever after |
| `LineageTheorems.LineageIsOneChain` | src/db.rs:1410-1433 | a lineage has exactly one active version; it ends the one predecessor chain of superseded versions down to version 0, with index equal to position |
| `LineageTheorems.ProposedMigrationsAreOpen` | src/db.rs:1480-1555 | a proposed migration has an active base and a pending target one index above it |
| `LineageTheorems.FlipNeverTripsTheActiveIndex` | src/db.rs:1410-1433 | the one-active index holds after each statement of the flip; activating first would break it |
| `LineageTheorems.IndexNeverRefuses` | src/db.rs:1410-1433 | in every reachable state the index takes the flip a broadcast owes and the bump of an unfunded migration |
| `LineageTheorems.MigrationFlipsAtMostOnce` | src/db.rs:1731-1752 | no interleaving of sweeps, re-broadcasts and cancels flips a migration's versions twice |
| `DualSweeps.SweepRecordedIff` | src/handlers/proposals.rs:1057-1079 | a broadcast migration sweep is recorded on its base if and only if its migration was still proposed (or the txid was there already); otherwise versions and migrations are untouched |
| `DualSweeps.FirstSweepDecides` | src/wallet.rs:583-638 | over any run without a re-sweep the base keeps the first sweep's txid if and only if no pass saw that sweep confirmed and a later one not |
| `DualSweeps.OtherSightingsAreIgnored` | src/wallet.rs:583-638 | continuations that saw the recorded sweep alike leave its row alike, whatever they saw of the other sweep |
| `ConcreteRuns.SecondSweepReorgIsMissed` | src/handlers/proposals.rs:1057-1079 | a run in which both sweeps are broadcast, the second is confirmed and reorged out, and no row changes |
| `LineageTheorems.TripleInvariant` | src/db.rs:987-1078 | in every run a latched height implies complete with a txid, pending implies neither, a recorded sweep implies superseded, and recording never meets a latched height |
| `CancelEffects.OpenSucceedsIffNeverMigrated` | src/db.rs:1480-1555 | a migration of an active version can be opened if and only if none was ever opened on it, cancelled ones included |
| `CancelEffects.AbandonedTargetFreezesLineage` | src/handlers/migrations.rs:482-500 | after a cancel before the flip the base stays current for good and every later migration request changes nothing |
| `CancelEffects.CancelDoesNotFreeTheLineage` | src/handlers/migrations.rs:482-500 | a run of create, migrate, cancel after which the guards pass and the next migration is refused |
| `CancelEffects.SupersededHasOneMigration` | src/db.rs:1635-1647 | a superseded version has exactly one migration row |
| `CancelEffects.ResweepPossibleIffNotCancelled` | src/handlers/migrations.rs:845-919 | a reverted version can be re-swept if and only if its migration was not cancelled |
| `ConcreteRuns.LateCancelStrandsTheBase` | src/db.rs:1760-1785 | a run that reaches a reverted base which can be re-swept, and after one cancel can not |
| `CancelEffects.LateCancelForbidsResweepForever` | src/db.rs:1760-1785 | a cancel closes the re-sweep of its base in every later state |
| `Reconcile.Manager.TxidsConfirmed` | src/wallet.rs:1026-1038 | collects exactly the wanted txids the wallet shows confirmed, with their heights |
| `Reconcile.Manager.ConfirmedInLineage` | src/wallet.rs:583-638 | the union over the lineage's wallets, the first wallet in listing order deciding the height |
| `Reconcile.Manager.Candidates` | src/wallet.rs:583-638 | exactly the complete versions with a parseable txid |
| `Reconcile.Manager.DecideOne` | src/wallet.rs:583-638 | latch, revert or leave one row by its sweep's confirmation |
| `Reconcile.Manager.ReconcileRevertedMigrations` | src/wallet.rs:583-638 | one pass rewrites exactly the rows of the lineage by confirmation, and returns how many went from complete to pending |
| `Reconcile.Manager.SyncAll` | src/wallet.rs:511-517 | every listed version is synced once, and its plain summary is listed |
| `Reconcile.Manager.SyncLineage` | src/wallet.rs:507-549 | rows are those of one pass and summaries those of the node; the count of reverts stands on the first rebuilt summary, or on the first if none is rebuilt, and nowhere else; it is the number of rows that went from complete to pending |
| `Reconcile.ReportCountsRight` | src/wallet.rs:537-549 | of a report with reverts exactly one summary has a count: the first whose wallet was rebuilt, or the first of all if none was; rebuild flags are those of the node |
| `SweepTexts.TxidRoundTrip` | src/wallet.rs:583-638 | the 64-digit printing of every txid parses back to it |
| `SweepTexts.SameTxidIff` | src/wallet.rs:583-638 | a recorded text is accepted exactly if it is 64 hexadecimal digits, and two accepted texts name one transaction if and only if they differ in case only |
| `SweepTexts.ConfirmedAsListed` | src/wallet.rs:1026-1038 | a wallet confirms a transaction exactly if it lists it with a height, and at a height it lists |
| `SweepTexts.UnionTakesFirst` | src/wallet.rs:583-638 | the height of a transaction is that of the first wallet in listing order that confirms it |
| `SweepTexts.LatchedAtFirstHeight` | src/wallet.rs:583-638 | a pass latches a recorded sweep at that height, cut to the 32-bit column, and leaves it alone if no wallet confirms it |
| `SweepTexts.OnlyItsOwnSweepLatches` | src/wallet.rs:583-638 | of two rows with different recorded texts a pass over wallets that show one of the sweeps latches that row only |
| `SweepTexts.SameLastDigitIsNotEnough` | src/wallet.rs:583-638 | the same for two texts that end in the same digit |
| `ReconcileTheorems.PassSettles` | src/wallet.rs:583-638 | after a pass a complete row has a latched height if and only if its sweep is confirmed now; other rows are untouched |
| `ReconcileTheorems.SecondPassIsIdle` | src/wallet.rs:583-638 | a second pass over the same wallets changes and reverts nothing |
| `ReconcileTheorems.RebuildFlagsAreIrrelevant` | src/wallet.rs:507-549 | two lineage syncs that end with the same canonical transactions write the same rows and report the same total, whatever rebuilds they saw |
| `ReconcileTheorems.HistoryDecides` | src/db.rs:1018-1078 | after any passes a recorded sweep is complete if and only if no pass saw it confirmed and a later one not; the height is that of the first confirmed pass |
| `ReconcileTheorems.RunFollowsSightings` | src/wallet.rs:583-638 | over any run the row is what its sightings make of it, whatever else is requested |
| `ReconcileTheorems.RecordedSweepHistory` | src/wallet.rs:583-638 | the same from the broadcast that records the sweep, over any run without a re-sweep |
| `Psbts.CombineUnion` | src/wallet.rs:2118-2144 | combining succeeds exactly for the same transaction and yields the union of the signatures |
| `SignatureValues.SubmissionByColumns` | src/handlers/proposals.rs:841-935 | an accepted submission stores, for every input and key, the partial's signature where it signs and else the stored one, and so for the origins; the partial is archived, and status, transaction and txid follow the threshold |
| `SignatureValues.RefusedSubmission` | src/handlers/proposals.rs:841-935 | any other submission changes nothing |
| `SignatureValues.StoredSignaturesWereHandedIn` | src/wallet.rs:2118-2144 | in every reachable state each stored signature is, value and all, one that an archived partial of that proposal carries at the same input under the same key |
| `SignatureValues.OriginKeptIff` | src/wallet.rs:2118-2144 | one submission keeps the origin of a key if and only if it names none or the same for it |
| `ConcreteRuns.ContributionRenamesOrigin` | src/wallet.rs:2118-2144 | a run in which a contribution names another origin for a key and replaces the draft's |
| `SignatureValues.OriginsStay` | src/wallet.rs:2118-2144 | over any later run a key keeps an origin: the one it had, or one that a partial archived since names |
| `SignatureValues.DraftOriginsKept` | src/wallet.rs:2118-2144 | so every origin of the draft is kept over any run in which no partial contradicts it |
| `Psbts.InjectTrezorSignatures` | src/wallet.rs:2047-2108 | accepts exactly when every non-blank signature decodes and the device owns a key of its input, and then adds only that device's signatures |
| `SigningTheorems.CanonicalPsbtIsArchiveUnion` | src/handlers/proposals.rs:841-935 | in every reachable state the canonical signatures are the union of the archived partials, and finalized means fully signed |
| `SigningTheorems.ResubmissionChangesNothing` | src/db.rs:849-869 | a signer's second submission changes nothing, in any later state |
| `SigningTheorems.TerminalProposalsFreeze` | src/handlers/proposals.rs:988-1098 | broadcast and withdrawn proposals and their archives never change |
| `SigningTheorems.ArchiveDecidesSignatures` | src/handlers/proposals.rs:841-935 | two runs with the same archived partials have the same merged signatures |
| `SigningTheorems.TwoArrivalsCommuteIff` | src/handlers/proposals.rs:841-935 | two submissions merge alike in both orders if and only if neither, by completing the proposal, shuts out something new |
| `ArrivalOrders.ManyArrivalsCommuteIff` | src/handlers/proposals.rs:841-935 | any finite set of acceptable submissions merges alike in all orders if and only if every nonempty choice of them that completes the proposal already carries, with it, the signatures of all |
| `ArrivalOrders.OrderLeaves` | src/handlers/proposals.rs:841-935 | after the submissions of one order the proposal carries exactly those up to the first that completes it, and its status says whether they do |
| `ConcreteRuns.OrderDecidesSignatures` | src/handlers/proposals.rs:841-935 | a reachable proposal and two acceptable submissions whose two orders leave different signatures |
| `SigningTheorems.InjectedAddsOwnKeysOnly` | src/wallet.rs:2047-2108 | what a Trezor submission adds belongs to the submitting device |
| `SigningTheorems.FinalizedMeansThresholdSigners` | src/handlers/proposals.rs:764-803 | with distinct devices that add only their own keys, a finalized proposal has contributions of at least threshold-many signers |
| `Bip67.SortSorts` | src/wallet.rs:1811-1837 | the stable sort returns a sorted permutation |
| `Bip67.SortedUnique` | src/wallet.rs:1811-1837 | two sorted permutations of the same keys are equal |
| `Bip67.LexLeIff` | src/wallet.rs:1811-1837 | one key sorts before another exactly if it is a prefix of it or smaller at the first byte where they differ |
| `TrezorRequest.PubkeyListIsSorted` | src/wallet.rs:1811-1837 | the pubkey list is the sorted permutation of the keys the cosigners derive |
| `TrezorRequest.PubkeyListIgnoresRowOrder` | src/wallet.rs:1811-1837 | every order of the cosigner rows gives the same list |
| `TrezorRequest.SlotPointsAtOwnKey` | src/wallet.rs:1970-2001 | the slot, found from other data, is the position of the device's own key in the list |
| `TrezorRequest.UniqueTxids` | src/wallet.rs:1936-1942 | the reference transactions are duplicate-free, exactly those of the inputs, in the order of their first occurrence |
| `TrezorRequest.ListInput` | src/wallet.rs:1803-1855 | the entry of one input, with the path of the device's first key there; none exactly if the device has no key there |
| `TrezorRequest.CollectInputs` | src/wallet.rs:1774-1855 | one entry per input with its outpoint, sequence number, value, multisig field and the path of the device's first key there; it fails exactly when the device has no key in some input |
| `TrezorRequest.CollectOutputs` | src/wallet.rs:1857-1925 | every output keeps its amount; it is change exactly if the device has a key in it, and then carries the device's path and the sorted keys there |
| `TrezorRequest.BuildSignRequest` | src/wallet.rs:1743-2020 | a request lists every input and output once with amounts, sequence numbers, sorted keys and threshold, the slot of the device, the reference transactions, version and lock time; it fails exactly when the device has no key in some input or is no cosigner |
| `TrezorRequest.InputServesScript` | src/wallet.rs:1803-1855 | an input at an account path, a keychain and an index is sent with these two as suffix; if its keys are those the cosigners derive there, the listed nodes derive exactly those keys, in BIP 67 order, and the slot holds the key whose origin is the device's |
| `TrezorRequest.OutputServesScript` | src/wallet.rs:1857-1925 | the same for a change output |
| `ChangeSets.ApplyTwice` | src/wallet.rs:1592-1607 | applying two changesets in turn is applying their merge |
| `ChangeSets.MergeAssociates` | src/wallet.rs:1592-1607 | merging is associative |
| `Custody.FederationWallet.Sync` | src/wallet.rs:942-1008 | the wallet takes in every component of a forward answer, and is exactly a rebuilt one; a forward answer is merged into aggregate and row, a rebuilt one replaces both, an empty one writes nothing; other federations' rows are untouched |
| `CustodyContents.ForwardSyncTakesIn` | src/wallet.rs:942-1008 | after a forward sync live wallet and row hold the old contents together with all checkpoints, transactions, anchors, sightings, evictions and reveals of the answer |
| `CustodyContents.FailedSyncTakesIn` | src/wallet.rs:942-1008 | a failed sync takes in what was applied, live only |
| `CustodyContents.RebuildReplaces` | src/wallet.rs:976-990 | after a rebuild live wallet and row are exactly the answer |
| `CustodyContents.RescanReplaces` | src/wallet.rs:661-771 | a rescan leaves exactly the scan in the row and no cached wallet |
| `CustodyContents.SpendTakesIn` | src/wallet.rs:1293-1349 | a built spend takes in its reveal, live and in the row |
| `CustodyContents.FailedSpendTakesIn` | src/wallet.rs:1293-1349 | a failed one takes it in live only |
| `CustodyContents.RevealTakesIn` | src/wallet.rs:1050-1114 | a reveal raises the last external index to the last one asked for, and no further |
| `CustodyContents.LoadTakesIn` | src/wallet.rs:386-485 | a loaded wallet knows what its row holds, and the node's tip under the RPC backend if the row is at genesis |
| `CustodyContents.CreateTakesIn` | src/wallet.rs:386-485 | a new wallet knows its descriptor, and the tip under the RPC backend |
| `CustodyContents.ResweepTakesIn` | src/wallet.rs:1483-1547 | a failed re-sweep leaves its sweep evicted at the latest time and nothing else new, a built one no wallet; the row stays |
| `CustodyContents.AnswersStay` | src/wallet.rs:942-1008 | from every reachable vault, what a written answer brought is in the row after every later run without a rebuild or a rescan, failures, previews and re-sweeps included |
| `Custody.FederationWallet.RevealAddresses` | src/wallet.rs:1050-1114 | reveals up to the target, merges everything staged and persists it, or writes nothing if nothing is staged |
| `Custody.FederationWallet.BuildProposal` | src/wallet.rs:1293-1349 | a built spend persists what it revealed; a failed one returns with it staged |
| `Custody.FederationWallet.BuildMigrationTx` | src/wallet.rs:1393-1430 | a built drain persists whatever was staged before |
| `Custody.FederationWallet.ComputeDrainAmount` | src/wallet.rs:1558-1587 | a preview drops whatever is staged and writes nothing |
| `Custody.FederationWallet.LocateStranded` | src/wallet.rs:1499-1510 | finds the first canonical unconfirmed transaction that spends owned coins |
| `Custody.FederationWallet.BuildMigrationResweep` | src/wallet.rs:1483-1547 | evicts the located sweep, drops the stage, and on success names the sweep it replaces |
| `Custody.FederationWallet.PersistDelta` | src/wallet.rs:1592-1607 | aggregate and row become the merge with the delta; no delta, no change |
| `Custody.Stranded` | src/wallet.rs:1499-1510 | what is found is the first listed unconfirmed transaction that spends owned coins; nothing is found only if there is none |
| `Custody.WalletManager.LoadOrInit` | src/wallet.rs:386-485 | a cached wallet is handed out unchanged; a missing one is loaded or created, seeded at genesis under the RPC backend, persisted and cached |
| `Custody.WalletManager.EvictCache` | src/wallet.rs:493-495 | forgets one cached wallet and touches no row |
| `Custody.WalletManager.Rescan` | src/wallet.rs:661-771 | overwrites the row with the scan and drops the cached wallet |
| `Custody.WalletManager.ResweepAndEvict` | src/handlers/migrations.rs:890-896 | the cached wallet is dropped only when the re-sweep was built |
| `CustodyTheorems.EveryRunReloadsAsLive` | src/wallet.rs:386-1008 | over every run in which nothing fails midway the row is the aggregate and reloading gives the live wallet |
| `CustodyTheorems.FailuresLoseNothing` | src/wallet.rs:1293-1349 | with failures too, as long as nothing staged is discarded, the live wallet is the row plus the stage |
| `CustodyTheorems.NextPersistHeals` | src/wallet.rs:1592-1607 | the next persisting operation writes what a failed one left staged |
| `CustodyTheorems.PreviewKeepsCustodyIff` | src/wallet.rs:1558-1587 | a preview keeps live and persisted state together if and only if the stage adds no checkpoint, transaction, anchor, sighting, eviction or reveal to the aggregate; with nothing staged it changes nothing |
| `CustodyTheorems.ReloadUnchangedIff` | src/wallet.rs:1592-1607 | merging a changeset changes what the aggregate loads as if and only if it adds something |
| `CustodyTheorems.PreviewAfterFailedSpendLoses` | src/wallet.rs:1293-1349 | after a failed spend that revealed a new change address a preview is never safe |
| `CustodyTheorems.LostRevealStaysLost` | src/wallet.rs:1293-1587 | after a failed spend and a preview the change address is live but never reaches the row, over any run that keeps the wallet cached and reveals no such index again |
| `CustodyTheorems.FailedResweepKeepsCustodyIff` | src/handlers/migrations.rs:890-896 | a re-sweep that cannot be built leaves live and persisted state equal if and only if no sweep was found or it was evicted for good before |
| `CustodyTheorems.EvictionLingers` | src/handlers/migrations.rs:890-896 | after such a failure the sweep stays evicted until the wallet is dropped or rebuilt |
| `CustodyTheorems.LoadKeepsRowIff` | src/wallet.rs:437-470 | a load leaves the row as it is if and only if there is one and it is not seeded at genesis |
| `CustodyTheorems.RevealIsIdempotent` | src/wallet.rs:1041-1114 | a reveal covers the addresses asked for, and asking for no more again changes nothing |
| `CustodyTheorems.BuiltResweepLeavesNoTraceIff` | src/wallet.rs:487-495 | a built re-sweep and the reload after it restore row and wallet exactly, unless a wallet at genesis is seeded again |
| `CustodyTheorems.RebuildDropsPhantoms` | src/wallet.rs:976-990 | after a rebuild or a rescan no earlier anchor is left, live or persisted, over every later run, unless an answer brought it again |
| `CustodyTheorems.MergingWouldKeepPhantoms` | src/wallet.rs:976-990 | merging the same answer would have kept every phantom anchor |
| `Canonical.CanonicalSet` | src/wallet.rs:1499-1520 | the canonical set holds known transactions only, with all their known ancestors and without a double spend |
| `CanonicalWalks.TakenIff` | src/wallet.rs:1512-1519 | a walk takes a transaction if and only if it fits where it is met or the walk without it brings it along; a walk that nowhere takes it is the walk without it |
| `CanonicalWalks.TakenIsBrought` | src/wallet.rs:1512-1519 | what is canonical without the sweep is exactly what some other supported transaction, canonical without it, brings along |
| `CanonicalWalks.ReturnsIffHeirs` | src/wallet.rs:1512-1519 | without its own support the sweep stays canonical if and only if a transaction canonical without it spends from it |
| `CanonicalWalks.CoinsFreedByEviction` | src/wallet.rs:1521-1532 | once the sweep alone is gone the drain selects the coins unspent before, without the sweep's outputs, and the coins the sweep had spent |
| `ResweepTheorems.CanonicalAfterEviction` | src/wallet.rs:1512-1519 | in every wallet, after the eviction the canonical set is that of the later walk, the sweep in it, while an anchor holds the sweep there, and otherwise that of the walk without it |
| `ResweepTheorems.ResweepDisplacesIff` | src/wallet.rs:1483-1547 | in every wallet the re-sweep spends an input of the sweep if and only if no anchor holds the sweep and the wallet without it has one of its owned coins unspent; the shared coins are exactly those, and the inputs are all the wallet without the sweep leaves unspent |
| `ResweepTheorems.RivalKeepsItsCoins` | src/wallet.rs:1512-1532 | a rival that is canonical without the sweep keeps all its coins from the re-sweep; if it spends all owned coins of the sweep, the sweep is not displaced |
| `ResweepTheorems.UnrivalledDisplacesIff` | src/wallet.rs:1483-1547 | in a wallet in which nothing supported competes with the sweep, the condition of `ResweepDisplacesIff` read off the present canonical set: no anchor is left on the sweep, no canonical transaction spends from it, and some coin it spent is funded without it |
| `ResweepTheorems.ResweepCoins` | src/wallet.rs:1521-1532 | if only the sweep itself goes, the inputs are exactly the coins unspent before, without the sweep's outputs, and all owned coins the sweep had spent |
| `ResweepTheorems.FootedResweepCoins` | src/wallet.rs:1521-1532 | this is so in a wallet without rivals if nothing holds the sweep and each of its ancestors is supported by itself |
| `ResweepTheorems.ResweepNeverMixes` | src/wallet.rs:1521-1532 | in any wallet, a re-sweep that spends a coin of the sweep spends none of its outputs |
| `ResweepTheorems.NeverBothCanonical` | src/wallet.rs:1450-1474 | transactions that share an input are never both canonical |
| `ResweepTheorems.StrandedIsShown` | src/wallet.rs:1499-1510 | what the builder picks from the wallet's listing is canonical, unconfirmed and spends owned coins |
| `ResweepTheorems.ResweepEndToEnd` | src/handlers/migrations.rs:886-896 | from the listing to the reload, in every wallet and for every backend: the picked sweep is canonical and in no block, the two share an input exactly if it was displaceable, are then never both canonical, and the reloaded wallet counts as canonical what it did before |
| `ResweepTheorems.ResweepOfResweep` | src/handlers/migrations.rs:886-896 | once the re-sweep itself, with no anchor left on it, is evicted, the wallet counts as canonical what it did before it, and a second re-sweep spends exactly what was unspent then, no coin of the first sweep |
| `ResweepTheorems.RunIsRecalled` | src/handlers/migrations.rs:886-896 | building a re-sweep, reloading the wallet and seeing the re-sweep in a sync reaches such a wallet |
| `ResweepWitnesses.StaleAnchorHoldsTheSweep` | src/wallet.rs:1499-1520 | a wallet whose unconfirmed sweep, picked by the builder, keeps a stale anchor: the re-sweep finds no coin |
| `ResweepWitnesses.HeirHoldsTheSweep` | src/wallet.rs:1512-1532 | a wallet in which a canonical child brings the evicted sweep back: the re-sweep finds no coin |
| `ResweepWitnesses.RivalTakesTheCoin` | src/wallet.rs:1512-1532 | a wallet with a sweep and a re-sweep of it: once the re-sweep is evicted the first sweep re-surfaces, and a second re-sweep finds no coin |
| `LiquidActivity.LiquidWallet.AddressActivity` | src/elements_wallet.rs:543-584 | totals are the saturated true sums of the policy outputs at the address; receipts are exactly those outputs |
| `LiquidActivity.LiquidWallet.AddressActivityMap` | src/elements_wallet.rs:593-623 | an entry for every address ever paid in the policy asset and no other, with the saturated true sums |
| `LiquidActivity.LiquidWallet.AddressActivityMapByAsset` | src/elements_wallet.rs:685-723 | the same for every asset, under its printed id |
| `LiquidActivity.LiquidWallet.AddressActivityByAsset` | src/elements_wallet.rs:731-783 | one row for every asset paid at the address, the policy asset first, the others by ascending id |
| `LiquidActivity.PolicyFirst` | src/elements_wallet.rs:779-783 | lists every gathered asset once, the policy asset first, the others by ascending id |
| `LiquidActivity.HexInjective` | src/elements_wallet.rs:709-712 | printed asset ids are equal only for equal assets |
| `LiquidActivity.HexAt` | src/elements_wallet.rs:709-712 | an asset id prints its bytes in reverse, two digits each |
| `LiquidActivity.UnspentAtMostReceived` | src/elements_wallet.rs:543-584 | unspent never exceeds received, saturated or not |
| `LiquidActivity.ReceiptsAddUp` | src/elements_wallet.rs:543-584 | the receipts of an address sum to what it received, the unspent ones to what it holds |
| `LiquidActivity.OneOutput` | src/elements_wallet.rs:543-584 | what one output adds to received and unspent at a place |
| `LiquidActivity.HistoriesAdd` | src/elements_wallet.rs:543-584 | the sums of two histories in turn are the sums of both |
| `LiquidActivity.TotalsStopAtU64` | src/elements_wallet.rs:543-584 | what is shown is the true sum up to the largest 64-bit number |
| `LiquidActivity.ScansAgree` | src/elements_wallet.rs:543-783 | the four scans of one history agree on every address and asset, a missing entry meaning zero |
| `BitcoinAddresses.BitcoinWallet.FundedAddresses` | src/wallet.rs:807-832 | one row per used index of the keychain, ascending, with the true sums; for the internal keychain this is also `change_addresses` |
| `BitcoinAddresses.BitcoinWallet.RevealAddresses` | src/wallet.rs:1068-1091 | the first addresses, each with the sums of a scan over all outputs |
| `BitcoinAddresses.SlotSumIsScriptSum` | src/wallet.rs:1068-1091 | with injective derivation the sum by index is the sum by script |
| `BitcoinAddresses.FundedAgreesWithScan` | src/wallet.rs:807-832 | map and scan agree at every index, a missing row meaning zero |
| `BitcoinAddresses.FundedListsAccountForAll` | src/wallet.rs:807-832 | both keychains together account for all received and for all unspent value |
| `BitcoinAddresses.OneOutput` | src/wallet.rs:807-832 | what one output adds to received and unspent, by index and by script |
| `BitcoinAddresses.SumsAdd` | src/wallet.rs:807-832 | the sums of two histories in turn are the sums of both |
| `Descriptors.SplitTopLevelCommas` | static/proposal-sign-jade-liquid.js:168-185 | the loop computes the top-level split |
| `Descriptors.UnwrapDescriptor` | client/onboard.js:92-109 | the loop peels as the recursive definition does |
| `DescriptorRoundTrips.SplitInvertsJoin` | static/proposal-sign-jade-liquid.js:168-185 | splitting a join of balanced parts returns the parts, without an empty last one |
| `DescriptorRoundTrips.JoinInvertsSplit` | static/proposal-sign-jade.js:139-156 | joining the split of any text returns the text, without a final separating comma |
| `DescriptorRoundTrips.LedgerTemplateSplits` | src/ledger.rs:123-156 | the argument of every built policy template splits into the threshold and the placeholders in order |
| `DescriptorRoundTrips.PathRoundTrip` | static/vendor/jade-rpc.js:434-457 | a printed derivation path parses to its steps, hardened ones with the high bit |
| `DescriptorRoundTrips.RowPath` | static/vendor/jade-rpc.js:434-457 | the row's own path gives the device the same steps |
| `DescriptorRoundTrips.PathReadIff` | static/vendor/jade-rpc.js:434-457 | exactly which path texts are read, and the steps of each |
| `DescriptorRoundTrips.ParseInvertsKeyOrigin` | src/ledger.rs:100-110 | parsing a printed key origin with any suffix returns fingerprint, steps and key |
| `DescriptorRoundTrips.KeyAcceptedIff` | static/proposal-sign-jade-liquid.js:139-166 | a key is accepted if and only if it is an origin with fingerprint and path in brackets followed by a key, and it is read as exactly those parts |
| `DescriptorRoundTrips.KeyListAcceptedIff` | static/proposal-sign-jade-liquid.js:118-119 | a key list is accepted if and only if every key is, and the keys come back in order |
| `DescriptorRoundTrips.WshRoundTrip` | static/proposal-sign-jade.js:74-101 | a printed wsh(sortedmulti(...)) parses to its threshold and keys in order |
| `DescriptorRoundTrips.Slip77RoundTrip` | static/proposal-sign-jade-liquid.js:123-135 | a printed blinding key parses to its 32 bytes |
| `DescriptorRoundTrips.CtRoundTrip` | static/proposal-sign-jade-liquid.js:75-120 | a printed ct(slip77(...),elwsh(sortedmulti(...))) parses to blinding key, threshold and keys in order |
| `DescriptorAcceptance.Slip77AcceptedIff` | static/proposal-sign-jade-liquid.js:123-135 | a blinding key is accepted if and only if it is slip77(...) around 64 hexadecimal digits of either case, spaces aside; its 32 bytes are the digits in pairs |
| `DescriptorAcceptance.MultiAcceptedIff` | static/proposal-sign-jade.js:74-101 | a sortedmulti is accepted if and only if it has a positive threshold and at least one key, all readable, and it is read as exactly those |
| `DescriptorAcceptance.WshAcceptedIff` | static/proposal-sign-jade.js:74-101 | the same for a whole wsh descriptor, checksum and spaces aside |
| `DescriptorAcceptance.CtAcceptedIff` | static/proposal-sign-jade-liquid.js:75-120 | a confidential descriptor is accepted if and only if it is ct(...) around exactly a blinding key and an elwsh(sortedmulti(...)), each read from its place |
| `DescriptorAcceptance.TrimDropsSpaces` | static/proposal-sign-jade-liquid.js:75-186 | trimming drops the spaces around a text and nothing else |
| `DescriptorAcceptance.ParseIntReads` | static/proposal-sign-jade-liquid.js:75-120 | a number is read past leading spaces, with its sign, up to the first other character |
| `DescriptorAcceptance.ParseIntNeedsDigit` | static/proposal-sign-jade-liquid.js:75-120 | without a digit there nothing is read |
| `DescriptorRoundTrips.UnwrapPeelsFourIff` | client/onboard.js:92-109 | a wrapped key comes out bare if and only if it has at most four wrappers; of more, the inner ones stay |
| `DescriptorRoundTrips.TrezorReadsBackIff` | client/onboard.js:115-128 | the Trezor fallback reads a printed key back under up to four wrappers and fails under more |
| `DescriptorAcceptance.TrezorKeyAcceptedIff` | client/onboard.js:115-128 | a reported key is accepted if and only if it is a fingerprint and a path in brackets, a base-58 key, and then nothing or a slash and one line; it is read as exactly its parts |
| `DescriptorAcceptance.LedgerPolicyBuiltIff` | src/ledger.rs:100-156 | a policy is built if and only if there is a signer and the threshold is one of their number; its keys are the rows' origins in order |
| `DescriptorRoundTrips.CaptureAgreesWithFallback` | client/onboard.js:82-84 | a captured path and the path read from a descriptor are the same text |
| `Texts.DecimalRoundTrip` | src/jade.rs:80-96 | reading a printed number gives it back |
| `Texts.TextLeIff` | src/elements_wallet.rs:779-783 | one text sorts before another exactly if it is a prefix of it or smaller at the first character where they differ |
| `RegNames.JadeNameFitsIff` | src/jade.rs:80-96 | for every label and i32 index the Jade name is ASCII and fits 15 characters, except for a very negative version with no usable label |
| `RegNames.LedgerNameFits` | src/ledger.rs:82-98 | for every label and i32 index the Ledger name is ASCII and has 1 to 64 characters |
| `RegNames.JadeBaseIsLongest` | src/jade.rs:84-94 | for every label and i32 index the base is the sanitized label, cut only at ten characters or at the device's limit, and `fed` if nothing is left of it |
| `RegNames.LedgerBaseIsLongest` | src/ledger.rs:86-96 | the base is the sanitized label, cut only at the device's limit, and `fed` if nothing is left of it |
| `RegNames.NamesEqualIff` | src/jade.rs:80-96 | names are equal if and only if version and base are, on either device and across labels |
| `RegNames.VersionsCollideIff` | src/ledger.rs:82-98 | two versions of one label share a name if and only if both indices are the last two of the type |
| `RegNames.AlphanumericsKept` | src/jade.rs:86-88 | sanitizing keeps exactly the letters and digits of a label |
| `RegNames.SanitizedByCharacter` | src/jade.rs:86-88 | the sanitized label is the label with every other character left out, in order |
| `RegNames.NameParts` | src/jade.rs:80-96 | a name is its base, a dash, a v and the version counted from one, saturating at the largest index |

## Left out

* Sessions, passwords, configuration, templates, QR codes, and all transport to nodes and devices.
* Authorization and roster validation: they can only refuse a request, and a refused request changes nothing.
* Interleaving inside one handler, and a failed SQL statement in the middle of one: a request is one atomic step.
* Labels, descriptor texts, timestamps and the `wallet_tip` column of the rows; `ORDER BY ... LIMIT 1` is any matching row, which the invariant makes unique where it matters.
* The 32-bit range of `version_index`: an index is a natural number in the tables, and the names are modelled over all of `i32`.
* The Liquid wallet's own synchronisation and sweep builder; the tables treat both chains alike.
* A wallet handle kept by one request while another drops it from the cache.
* The HD node encoding and the address text of a Trezor request; the BIP 371 and taproot policies.
* `build_jade_register`, whose guards are those of `build_ledger_policy`.
* Overflow of Bitcoin amounts, which the money supply excludes; the Liquid totals do saturate.
* JavaScript numbers beyond 2^53 in `parseInt`, and lower-casing of non-ASCII letters.
* Reservation sums, balances, rejections and views: pure reads.
- Database.Tables.InsertFederationWithMembers: does not model the member rows of the same transaction, because no modelled request reads them.
- Database.Tables.CreatePending: does not model the member and change rows of the same transaction, because no modelled request reads them.
- Database.Tables.EnactedMigrationForBase: does not state the newest-first choice; `CancelEffects.SupersededHasOneMigration` shows there is never a choice.
- Custody.FederationWallet.Sync: does not model an SQL failure between merging the aggregate and writing the row.
