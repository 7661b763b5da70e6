# Verified models of the trading system's bookkeeping

The project models six components whose correctness is a statement about every input, every run or
every interleaving, and proves those statements.

* **Discretionary admission** (`rotation.dfy`, `admission.dfy`, `admission_rows.dfy`,
  `admission_properties.dfy`, `admission_fairness.dfy`, `relevance_fairness.dfy`,
  `receipt_chain.dfy`). A deterministic scheduler of deep slots: reserved event and exploration
  slots, required symbols, ranked salience, and rotations behind two persistent cursors. Receipts
  replay exactly and are committed by prepare, compare and swap.
* **Gate-2 calibration arithmetic** (`hac_variance.dfy`, `block_summaries.dfy`,
  `binomial_bounds.dfy`, `bootstrap.dfy`), over exact reals: the Bartlett variance, calendar block
  summaries, Clopper-Pearson bisection and the early-stopping bootstrap.
* **Paired virtual exit replay** (`exit_replay.dfy`, `exit_levels.dfy`, `exit_windows.dfy`,
  `shadow_ledger.dfy`, `shadow_paths.dfy`, `shadow_windows.dfy`): a ratcheting stop recomputed from
  scratch at every update, the ledger around it, and both over scans that show only the newest bars.
* **Single-kernel identity** (`kernel_identity.dfy`, `kernel_instance.dfy`, `kernel_status.dfy`):
  lock, published record, crashes and reused pids as interleaved system calls, and readers that
  take several non-atomic reads.
* **Lossless journal migration** (`row_codec.dfy`, `migration.dfy`): the typed byte stream behind
  the table digests, and a copy that may fail or be killed at any step.
* **Coverage repair** (`coverage_plan.dfy`, `coverage_fetch.dfy`): the plan of requests for missing
  bars, the classification of every key, and the repaired input.

Shared vocabulary is in `wrappers.dfy`, `sequences.dfy` and `real_arithmetic.dfy`. Verify everything
with `dafny verify dfyconfig.toml`.

## What the proofs found

* Merely relevant symbols can starve beside required ones, because the two loops share a cursor
  (`AdmissionFairness.RelevanceStarves`). Exactly when they do not is
  `RelevanceFairness.RelevanceFairIff`: what counts is how many relevant symbols lie between
  neighbouring required ones. Otherwise some symbol starves from every state (`EveryStateStarves`).
* The two one-sided binomial bounds can cross for an error above one half
  (`BinomialBounds.BoundsCross`; the exact condition on the arguments is `BoundsOrderedIff`).
* Recording decisions twice repeats the gap of a signal without a closed bar, while updates do not
  repeat gaps (`ShadowLedger.RecordTwice`, and an instance in `RecordRepeatsGap`).
* A closed exit path is reported as `closed_path_replay_mismatch` although no declared bar has
  changed: scans hold the newest bars only, and when one starts thirteen bars before the entry at a
  bar that opened with a gap, the entry ATR and with it the risk shrink (`ExitWindows.EdgeMismatch`,
  a pair of scans in `ShadowWindows.ScansMismatch`, the exact condition in `NextUpdate`).
* A release that cannot read the record frees the lock and leaves a record that names a live
  process (`KernelIdentity.ReleaseOutcome`); `status_only` answers UNKNOWN then. An unverified
  RUNNING of `inspect` may be another reader's probe (`KernelStatus.ProbeLooksRunning`); after such a
  release even a verified one may be, and `stop` then signals a process that does not hold the lock
  (`KernelStatus.UnreadReleaseMisleads`).
* A caller that reads an empty journal just before another commits the first receipt is told that
  the rotation or receipt is missing, although nothing is (`ReceiptChain.PreparedFrom`; a run in
  `FirstReceiptRace`). It writes nothing.
* A `market_provenance` event without detail, an event with a blob in an identity column, or one
  whose untransformed detail does not resolve to itself makes a migration fail
  (`Migration.MigratableTable`, `BareProvenanceFails`, `BlobSubjectFails`).
* The planned range of a coverage request misses the last bar of the grid when the window is not a
  whole number of bars (`CoveragePlan.RequestPartition`, `UnevenMissesLastBar`).

## Model

| member | source | states |
|---|---|---|
| Rotation.Rotate | trader/attention_admission.py:87-92 | The rotation holds every symbol exactly once and in visiting order: upwards from just behind the cursor, around the circle. |
| Rotation.BisectRight | trader/attention_admission.py:91 | The insertion point right of the cursor: an item lies before it exactly when it is at most the cursor. |
| Rotation.CursorProgress | trader/attention_admission.py:190-194 | When a cursor moves to the last of several symbols visited before s, the number of symbols still ahead of s falls by at least that many. |
| Admission.RankedOf | trader/attention_admission.py:161-174 | The ranked list holds exactly the usable, eligible symbols at or above the threshold, by falling key and then by name. |
| Admission.Explore | trader/attention_admission.py:186-194 | The exploration loop picks the first unchosen symbols of the rotation, and leaves the cursor on the last pick when the reserve is filled, else at the end of what it walked. |
| Admission.Fill | trader/attention_admission.py:199-215 | The required, ranked and relevant loops pick the first unchosen symbols of their order up to the remaining capacity; the cursor rests on the last pick. |
| Admission.Choose | trader/attention_admission.py:174-215 | The five stages run as loops give the plan that the properties below are about. |
| Admission.Admit | trader/attention_admission.py:95-251 | Admission gives the specified receipt or the first refusal in the order in which the code checks. |
| Admission.VerifiesIff | trader/attention_admission.py:295-301 | A receipt verifies exactly when admission, replayed on the observation, policy and prior state it records, gives the same receipt. |
| Admission.IssuedVerifies | trader/attention_admission.py:219-251 | Every issued receipt verifies, starts from the state that was given, leaves a valid state, and raises the generation by one. |
| Admission.GenuineSalience | trader/attention_admission.py:219-233 | What a salience receipt carries: the admitted symbols are the picks of the five stages, and the next state holds the two cursors and the signatures of all ranked symbols. |
| Admission.GenuineVolume | trader/attention_admission.py:254-292 | A volume admission takes the largest volumes, moves no cursor, keeps the signatures and raises the generation. |
| AdmissionRows.IssuedIff | trader/attention_admission.py:102-158 | A receipt is issued exactly for a valid state, a known schema, a cut that is not negative, a cohort all of crypto, peers inside it, anchors and exposure symbols without repetition, no reserves by volume, and no negative threshold or salience. |
| AdmissionRows.FirstRefusal | trader/attention_admission.py:102-158 | A refused admission gives the first reason that is true, in the order of the code. |
| AdmissionRows.ReceiptCarries | trader/attention_admission.py:216-233 | Broad, peer, deep, anchor and exposure symbols, the deferred ones and the required ones among them, and the generation of every issued receipt, as the observation has them. |
| AdmissionRows.RolesChecked | trader/attention_admission.py:46-63 | Roles are accepted exactly when no list repeats a symbol, deep and peer symbols are broad, and events and exploration are deep and disjoint. |
| AdmissionRows.SlotsFilled | trader/attention_admission.py:183-215 | In the numbers of the policy: events and exploration each stay within their reserve; events used and unused make min(event reserve, slots), exploration used and unused make min(exploration reserve, the slots events leave), and all others have the rest; no slot of any of the three stays unused while a symbol for it is left; and every admitted symbol is admitted for what it is. |
| AdmissionRows.RowsExplained | trader/attention_admission.py:155-218 | One row a member in order, whose category and reason follow from what the symbol is: required symbols are strategy_required, others that qualify are ranked, the rest relevant or warm-up relevant; deferred rows say unusable, out of capacity, or nothing qualifying. |
| AdmissionRows.VolumesAdmitted | trader/attention_admission.py:254-292 | By volume: the largest positive volumes of valid tickers, by falling volume and then by name, up to the slots, with a row for each member that says so. |
| AdmissionProperties.StagesHold | trader/attention_admission.py:183-215 | The picks of all stages together are distinct and usable; every stage stays within its capacity and picks only what it is for. |
| AdmissionProperties.AdmissionAccounts | trader/attention_admission.py:46-63 | For every input: role boundaries are never violated; roles are refused only for repeated anchors or exposure symbols; admitted and deferred symbols partition the cohort; used plus unused is the capacity; unused reserves are nonnegative and within the unused capacity; the next state passes verification. |
| AdmissionProperties.VolumeAccounts | trader/attention_admission.py:254-292 | The same books balance for volume admissions. |
| AdmissionProperties.RequiredFirst | trader/attention_admission.py:195-215 | If any symbol is admitted as ranked, relevant or warm-up relevant, no usable required symbol is deferred. |
| AdmissionProperties.RankedBest | trader/attention_admission.py:204-207 | A qualifying symbol is deferred only behind better ones: all symbols admitted as ranked outrank it. |
| AdmissionProperties.EventsBest | trader/attention_admission.py:174-185 | A new event is passed over by the event stage only behind better new events. |
| AdmissionProperties.EventsRemembered | trader/attention_admission.py:175-176 | Once its signatures are remembered, the same salience observation yields no event, under any policy. |
| AdmissionProperties.Candidates | trader/attention_admission.py:440-460 | For every receipt that verifies, the projection gives one candidate per admitted symbol, in order and with its rank, with the category of its row, and never meets a deferred category or a missing row. |
| AdmissionFairness.ExplorationFair | trader/attention_admission.py:183-194 | Exploration never starves: a symbol usable at every salience admission, with exploration capacity at least e and all usable sets inside u, is admitted at least once in any ceil(|u|/e) of them, wherever the run starts and whatever volume admissions lie between. |
| AdmissionFairness.RequiredFair | trader/attention_admission.py:195-203 | A symbol usable and required at every salience admission is admitted at least once in any ceil(|u|/k) of them, where k bounds the ranked capacity from below and u holds all required sets. |
| AdmissionFairness.RelevanceFair | trader/attention_admission.py:208-215 | Relevance rotates just as fairly while no usable symbol is required and the ranked capacity exceeds the number of qualifying symbols by at least k. |
| AdmissionFairness.RelevanceStarves | trader/attention_admission.py:197-215 | Beside a required symbol it does not: with two slots, one required and two relevant symbols, one relevant symbol is never admitted in any run of any length, because the two loops share a cursor. |
| AdmissionFairness.CrowdedRun | trader/attention_admission.py:197-215 | Such runs exist from the initial state, of every length. |
| RelevanceFairness.RelevanceFairIff | trader/attention_admission.py:195-215 | Exactly when relevance is fair beside required symbols: over fixed sets, without reserves and qualifying salience, some number of generations suffices for every run from every cursor if and only if there is nothing to serve, or slots for all, or slots are left beside the required symbols and every arc between neighbouring required symbols holds fewer relevant symbols than are left. |
| RelevanceFairness.ShortArcsServe | trader/attention_admission.py:195-215 | With short arcs one generation more than there are required symbols is enough. |
| RelevanceFairness.EveryStateStarves | trader/attention_admission.py:195-215 | Outside the condition every state has a relevant symbol that no run from it admits again after finitely many generations. |
| RelevanceFairness.FixedRunFrom | trader/attention_admission.py:195-215 | From every valid state there are runs over fixed sets of every length, so starving is not a matter of having no run. |
| RelevanceFairness.LongArcStarves | trader/attention_admission.py:195-215 | With one arc that is too long the cursor, wherever it starts, ends up at the start of such an arc and stays; some relevant symbol is admitted no more. |
| RelevanceFairness.PivotNearer | trader/attention_admission.py:199-215 | One generation in front of a short arc brings the cursor closer to a long one, and never carries it beyond. |
| RelevanceFairness.CrowdedStarves | trader/attention_admission.py:195-215 | The smallest failing case, one required and two relevant symbols with two slots, is outside the condition. |
| RelevanceFairness.FixedPlan | trader/attention_admission.py:195-215 | What one generation admits and where it leaves the shared cursor, as a function of the sets, the slots and the cursor. |
| RelevanceFairness.PivotMoves | trader/attention_admission.py:199-215 | When every arc is shorter than the slots left, missing a symbol carries the cursor past at least one required symbol towards it. |
| RelevanceFairness.PivotStays | trader/attention_admission.py:199-215 | When an arc holds as many relevant symbols as there are slots, a cursor at its start comes back to it, with the same picks. |
| AdmissionFairness.CircleBound | trader/attention_admission.py:87-92 | The argument behind all fairness bounds: a cursor cannot keep approaching a symbol for more turns than the circle allows. |
| ReceiptChain.Journal.Prepare | trader/attention_admission.py:384-397 | Preparation re-verifies the stored receipt and the new one and refuses a missing or contradicting pair, in the code's order. |
| ReceiptChain.Journal.WriteUnderLock | trader/attention_admission.py:402-417 | Under the writer lock nothing is written unless the pair is still the one that was read. |
| ReceiptChain.Journal.Persist | trader/attention_admission.py:378-418 | The sections in sequence. |
| ReceiptChain.PersistAloneExtends | trader/attention_admission.py:378-418 | Without interference, on a sound journal, only admission itself can refuse, and then nothing changes; otherwise exactly one receipt is appended. |
| ReceiptChain.PairChecked | trader/attention_admission.py:384-397 | For any stored pair: half a pair is refused, and so is none where events are; then a receipt that does not verify, and a rotation that is not the state the receipt leads to; otherwise the outcome is that of the admission from there. |
| ReceiptChain.CommitsIff | trader/attention_admission.py:402-417 | For any store: a receipt is written exactly when the pair is still the one read and not missing where events are; both keys and the event are then of that receipt. |
| ReceiptChain.PreparedFrom | trader/attention_admission.py:386-397 | What preparing gives for a pair read k events into the chain, including the refusal that a caller sees when the first receipt was committed between its two reads. |
| ReceiptChain.FirstReceiptRace | trader/attention_admission.py:384-389 | A concrete run of two callers on an empty journal in which the slower one is told that a receipt is missing. |
| ReceiptChain.CommitExtends | trader/attention_admission.py:402-417 | A receipt prepared from the pair after k events commits exactly when no event has happened since. |
| ReceiptChain.Generation | trader/attention_admission.py:219-221 | The receipt at position k of the chain leads from generation k to k + 1. |
| ReceiptChain.Unforked | trader/attention_admission.py:402-417 | No two committed receipts start from the same state. |
| ReceiptChain.ChainUnforked | trader/attention_admission.py:378-418 | In every interleaving of any number of callers, stopping anywhere: one chain from the initial state, each prior state equal to the previous next state, the stored pair equal to its end; a caller told that it committed finds its receipt there; a contradicting pair is never found. |
| ReceiptChain.HistoryKept | trader/attention_admission.py:411-417 | The chain only ever grows at its end. |
| ReceiptChain.AtMostOneCommits | trader/attention_admission.py:403-404 | Of the callers that prepared from the same pair at most one commits; once one has, every other is told that the rotation changed and writes nothing, whatever happens in between. |
| ReceiptChain.StoredChainExplores | trader/attention_admission.py:183-194 | The exploration bound holds of every stretch of the committed chain, under concurrency as well. |
| HacVariance.Quadratic | scripts/gate2_calibrate_stationary.py:237-241 | The accumulating lag loop computes the quadratic form of the Bartlett kernel. |
| HacVariance.WindowSums | scripts/gate2_calibrate_stationary.py:235-241 | For an integer bandwidth w the form is the sum of the squared sums of all windows of length w, divided by w. |
| HacVariance.FormLinear | scripts/gate2_calibrate_stationary.py:235-241 | The form is linear in its kernel. |
| HacVariance.BartlettMix | scripts/gate2_calibrate_stationary.py:240 | The kernel of a real bandwidth is a convex mix of the kernels of the two neighbouring integers. |
| HacVariance.BartlettDefinite | scripts/gate2_calibrate_stationary.py:242-245 | For every block sequence and every real bandwidth of at least 1 the form is nonnegative, and zero exactly when every entry is zero. |
| BlockSummaries.Summaries | scripts/gate2_calibrate_stationary.py:190-208 | The binning loop leaves in every calendar block the moments of exactly its trades, and the block totals are the moments of all trades; the counts beside it are those of the trades and of the blocks that hold both arms, and eligibility is the three thresholds on them. |
| BlockSummaries.TradesConserved | scripts/gate2_calibrate_stationary.py:203-207 | Both arms, the unknown and the incomplete trades add up to all trades. |
| BlockSummaries.PooledVariance | scripts/gate2_calibrate_stationary.py:211-218 | The pooled variance taken from the two summed arms is never negative, and zero exactly when all trades that count have the same return. |
| BlockSummaries.InfluencesCancel | scripts/gate2_calibrate_stationary.py:230-237 | The paired influences of all blocks sum to zero. |
| BlockSummaries.Variance | scripts/gate2_calibrate_stationary.py:237-245 | The variance under the square root is the scaled Bartlett form of the paired influences; it is never negative, and zero exactly when all paired influences are. |
| BlockSummaries.VarianceAtOne | scripts/gate2_calibrate_stationary.py:235-244 | With a bandwidth of one block it is k/(k-1) times the sum over the blocks of the squared difference of the two arms' (block sum less block count times arm mean) over arm count, written in moments. |
| BlockSummaries.VarianceScales | scripts/gate2_calibrate_stationary.py:211-244 | Outcomes multiplied by c multiply the variance by c squared, at any bandwidth. |
| BlockSummaries.VarianceOfCopies | scripts/gate2_calibrate_stationary.py:211-244 | Repeating every trade of every block does not change it, at any bandwidth. |
| BinomialBounds.Pascal | scripts/gate2_calibrate_stationary.py:48-51 | The running product of ratios gives Pascal's triangle. |
| BinomialBounds.CdfStep | scripts/gate2_calibrate_stationary.py:55-57 | One more trial splits the distribution function over its outcome. |
| BinomialBounds.CdfFull | scripts/gate2_calibrate_stationary.py:55-57 | All masses sum to one. |
| BinomialBounds.CdfDecreases | scripts/gate2_calibrate_stationary.py:54-61 | The distribution function that is inverted falls strictly in p for every count below n. |
| BinomialBounds.CdfAtEnds | scripts/gate2_calibrate_stationary.py:52-61 | It is one at zero and zero at one. |
| BinomialBounds.BracketInvariant | scripts/gate2_calibrate_stationary.py:52-61 | Every bisection step keeps the root between the ends and halves their distance. |
| BinomialBounds.Root | scripts/gate2_calibrate_stationary.py:47-62 | The result lies within 1/2305843009213693952, half the width that sixty halvings leave, of the only root. |
| BinomialBounds.BinomialBounds | scripts/gate2_calibrate_stationary.py:36-66 | Invalid arguments are refused, no trials give [0, 1], and otherwise both bounds lie in [0, 1] and solve their tests to that accuracy, in order when the error is at most one half. |
| BinomialBounds.BracketOrder | scripts/gate2_calibrate_stationary.py:52-62 | Two bisections whose tests are ordered end on the same bracket or on disjoint ordered ones. |
| BinomialBounds.BoundsOrdered | scripts/gate2_calibrate_stationary.py:64-66 | 0 <= lower <= upper <= 1 for every error of at most one half. |
| BinomialBounds.BoundsOrderedIff | scripts/gate2_calibrate_stationary.py:64-66 | For all arguments: the bounds are in order exactly when no point of the final bisection grid is rejected from both sides, a condition on count, trials and error alone. |
| BinomialBounds.BoundsCross | scripts/gate2_calibrate_stationary.py:64-66 | For one event in two trials with error 0.9 they are not. |
| Bootstrap.Run | scripts/gate2_calibrate_stationary.py:263-291 | The batched loop reports the counts of the draws it generated, and stops after the first batch at which both hypotheses have failed, never before. |
| Bootstrap.ReportedIs | scripts/gate2_calibrate_stationary.py:285-288 | The reported p is one exactly for a hypothesis that is not eligible or not valid, past one degenerate draw in five, or with every draw extreme; otherwise it is (extreme + 1) / (draws + 1). |
| Bootstrap.VerdictsAre | scripts/gate2_calibrate_stationary.py:280-283 | When a hypothesis counts as failed, and when as rejected, on the counts and the contrast. |
| Bootstrap.ShortcutPreservesDecisions | scripts/gate2_calibrate_stationary.py:280-288 | At all levels up to the decision level the early-stopped run rejects exactly when the full run does; its p never exceeds the full one; the results are equal exactly when it did not stop. |
| Bootstrap.Compare | scripts/gate2_calibrate_stationary.py:367-368 | The calibration's use of the shortcut, with the largest level as decision level, decides as the full run. |
| Bootstrap.LeastDraws | scripts/gate2_calibrate_stationary.py:78-80 | The planned number of draws is the least at which a rejection is possible at all. |
| Bootstrap.RejectionNeedsNoExtreme | scripts/gate2_calibrate_stationary.py:285-288 | With that many draws a valid hypothesis is rejected exactly when no draw is extreme. |
| Bootstrap.StationaryIndices | scripts/gate2_calibrate_stationary.py:251-260 | The in-place fill gives every position its run's start advanced around the circle. |
| Bootstrap.RotationCoversOnce | scripts/gate2_calibrate_stationary.py:257-260 | Without restarts every block is drawn exactly once. |
| ExitReplay.Replay | scripts/exit_ab_shadow.py:199-282 | The from-scratch loop reports what the trade carried one bar at a time reports. |
| ExitLevels.ReplayIs | scripts/exit_ab_shadow.py:199-281 | On the bars, without anything carried: the peak of entry and favourable prices; the level of every arming bar, trail_atr times its ATR behind the peak on path A and the retained share on path B; the stop as the tightest of those and the initial one; the first bar that reaches it, or the last one, or the first arming bar without an ATR. The replay gives the report that fits, and no other report does. |
| ExitReplay.AtrCausal | trader/agents/indicators.py:20-27 | The average true range at a bar does not depend on later bars. |
| ExitReplay.CarryCausal | scripts/exit_ab_shadow.py:223-243 | Carrying the trade over a prefix does not see later bars. |
| ExitReplay.ReplayCausal | scripts/exit_ab_shadow.py:222-281 | Once closed or truncated, the whole report is the same for every continuation of the bars. |
| ExitReplay.LockedNeverFalls | scripts/exit_ab_shadow.py:258-261 | The locked R is never below -1 and never falls as bars are appended; nor does the peak. |
| ExitReplay.StopRatchets | scripts/exit_ab_shadow.py:236 | The stop and the favourable extreme only ever move the trade's way. |
| ExitReplay.GivebackKeepsShare | scripts/exit_ab_shadow.py:233-238 | Once armed, the stop of path B is exactly entry plus the retained share of the peak excursion, its locked R that share of the peak R, and a stop exit realises it. |
| ExitReplay.ExitFloor | scripts/exit_ab_shadow.py:240-246 | With closes inside their bars every closed exit has at least the locked R, hence at least -1. |
| ExitReplay.LongShortMirror | scripts/exit_ab_shadow.py:210-281 | Reflecting all prices about the entry and flipping the side gives the same exit reason, trigger bar, arming bar and R-multiples, for both paths. |
| ShadowLedger.OpeningsDistinct | scripts/exit_ab_shadow.py:173-180 | In an unbroken series every opening time occurs once, so the index by opening time is exact. |
| ShadowLedger.LatestClosed | scripts/exit_ab_shadow.py:145-149 | The signal bar is the newest one closed at the decision. |
| ShadowLedger.Ledger.Record | scripts/exit_ab_shadow.py:136-160 | Recording adds one opportunity with both paths for every new signal with a closed bar, and a gap for every other. |
| ShadowLedger.Ledger.NoteGap | scripts/exit_ab_shadow.py:163-170 | An identical gap is recorded once. |
| ShadowLedger.Ledger.AdvancePath | scripts/exit_ab_shadow.py:329-360 | A closed path is compared on its frozen fields and never rewritten; an open one is replaced by its replay. |
| ShadowLedger.Ledger.Update | scripts/exit_ab_shadow.py:291-365 | One update of the whole ledger. |
| ShadowLedger.UpdateIdempotent | scripts/exit_ab_shadow.py:291-365 | A second update from the same receipts leaves opportunities, paths, gaps and meta as they are. |
| ShadowLedger.ClosedForever | scripts/exit_ab_shadow.py:337-344 | Over any run of recordings and updates a path recorded closed is never rewritten, and no gap is lost. |
| ShadowLedger.UpdateInAnyOrder | scripts/exit_ab_shadow.py:304-358 | Visiting the opportunities in any other order, by key for one, leaves the same paths and the same set of gaps. |
| ShadowPaths.SeriesIs | scripts/exit_ab_shadow.py:173-180 | The series of a symbol is its declared bars by opening time; it is broken exactly when two neighbours are not four hours apart, and the gap names the first such pair. |
| ShadowPaths.UpdateAdvances | scripts/exit_ab_shadow.py:291-365 | What an update does to the whole ledger, on the declared bars: a path that is closed, or whose signal cannot be replayed, stays; every other becomes the report that its bars call for, long for a BUY and short for a SELL; and exactly the gaps of a broken series, a missing entry bar, a missing entry ATR, a truncation and a mismatch are noted. |
| ShadowPaths.RewrittenOnSide | scripts/exit_ab_shadow.py:307 | Every path that an update rewrites was entered on the bar of its signal; bought it has its initial stop below the entry and its peak at or above it, sold the other way round. |
| ShadowPaths.RecordTakes | scripts/exit_ab_shadow.py:136-158 | Signal by signal: one of the strategy on a declared symbol inside the window becomes an opportunity at the close of the newest closed bar, with two open paths, unless its key is known; without a closed bar it leaves a gap; any other leaves nothing. |
| ExitWindows.AtrEdge | scripts/exit_ab_shadow.py:183-189 | Replayed from the thirteenth bar before it, a bar has at most the average true range it has in the whole history, and exactly that one if and only if the first bar does not reach back over a gap to the close before it. |
| ExitWindows.ReplayWindow | scripts/exit_ab_shadow.py:199-281 | A replay over the newest bars gives the same report as one over the whole history if and only if the bars start at least fourteen before the entry, or thirteen before it without a gap at the first. |
| ExitWindows.ClosedThenSlid | scripts/exit_ab_shadow.py:199-281 | A path that closed, replayed with more bars behind and fewer in front: the same report if and only if the entry ATR is the recorded one, which is that same condition; otherwise another exit price or R, unless the exit was at the entry price. |
| ExitWindows.EdgeMismatch | scripts/exit_ab_shadow.py:222-281 | A path stopped out at its initial stop, replayed from a gapped bar thirteen before the entry, has other frozen fields. |
| ShadowWindows.MismatchesAtEdges | scripts/exit_ab_shadow.py:337-344 | Over any run from an empty ledger whose scans show windows of growing histories, windows that only move on: a mismatch is reported only of an entry that some update saw thirteen bars behind a gapped first bar. |
| ShadowWindows.UngappedNeverMismatches | scripts/exit_ab_shadow.py:337-344 | So no mismatch is ever reported when every window starts at the first bar of the history or without a gap; scans that only append are a case of it. |
| ShadowWindows.NextUpdate | scripts/exit_ab_shadow.py:337-344 | And of a closed path the next update reports exactly the difference in frozen fields: there is one only at such an edge, and for an exit away from the entry price if and only if the entry ATR over the present bars is no longer the recorded one. |
| ShadowWindows.ScansMismatch | trader/observability/declared.py:102 | Two scans of the newest 26 bars of one unchanging history, one bar apart: the first closes a path, the second reports it as a mismatch. |
| ShadowLedger.RecordTwice | scripts/exit_ab_shadow.py:138-158 | Recording the same decisions again adds no opportunity, but repeats the gap of every signal without a closed bar: it leaves the ledger alone exactly when there is none. |
| ShadowLedger.RecordRepeatsGap | scripts/exit_ab_shadow.py:145-148 | One signal on a symbol without bars, recorded twice, leaves its gap twice. |
| KernelIdentity.AlwaysConsistent | trader/runtime_identity.py:323-363 | In every interleaving of starts, crashes, reused pids, acquisitions, publications, releases and probes an instance in a locking stage holds the lock, and no other; holders are alive; a release about to unlink sees its own record. |
| KernelIdentity.AtMostOneHolder | trader/runtime_identity.py:327-337 | At most one instance holds the lock. |
| KernelIdentity.RecordNamesHolderAlways | trader/runtime_identity.py:338-363 | If the record names a live process, that process holds the lock with that instance, in every run whose releases could read the record. |
| KernelIdentity.ReleaseOutcome | trader/runtime_identity.py:354-363 | A release undoes its publication exactly when it could read the record; otherwise it leaves a record that names a live process holding nothing. |
| KernelIdentity.GivenUpForGood | trader/runtime_identity.py:354-363 | An instance that gives up the lock, by refusal, release or death, never holds it again in any continuation. |
| KernelIdentity.UnlinkRemovesOwn | trader/runtime_identity.py:356-362 | An unlink never removes a successor's record and happens while the lock is still held. |
| KernelIdentity.OnlyHolderWrites | trader/runtime_identity.py:345-363 | Only the holder of the lock changes the record. |
| KernelInstance.Kernel.Acquire | trader/runtime_identity.py:323-343 | Acquisition succeeds exactly on the expected revision, with the lock free and no legacy process; a wrong revision is refused before anything is opened, and every refusal leaves lock and record alone. |
| KernelInstance.Kernel.BindHeartbeat | trader/runtime_identity.py:345-347 | Binding republishes the same record with the heartbeat. |
| KernelInstance.Kernel.Release | trader/runtime_identity.py:354-363 | Release unlinks the record exactly if it is readable and its own, then frees the lock; without the lock it does nothing. |
| KernelInstance.AcquireThenRelease | trader/runtime_identity.py:323-363 | Acquiring and releasing leaves neither lock nor record, whatever stale record was there, and the next instance can acquire. |
| KernelInstance.SecondAcquireRefused | trader/runtime_identity.py:328-332 | While one instance holds the lock no other acquires it. |
| KernelStatus.StatusOnly | trader/runtime_identity.py:253-311 | The verdict is RUNNING, NONE, STALE_RECORD or UNLOCKED_PROCESS exactly on the stated evidence; reasons are given exactly for UNKNOWN; evidence that could not be read is always UNKNOWN. |
| KernelStatus.VerdictAnswers | trader/runtime_identity.py:284-310 | Each answer on the raw evidence: UNLOCKED_PROCESS exactly with complete evidence, no lock holder and a listed process; NONE and STALE_RECORD exactly with no holder, no process and no record or one that is not alive; RUNNING exactly with a live record whose pid is both a holder and a listed process. |
| KernelStatus.RunningSound | trader/runtime_identity.py:284-295 | A RUNNING verdict from reads at different times: at the instant the lock table was read, the recorded process held the lock. |
| KernelStatus.NoneSound | trader/runtime_identity.py:305-310 | NONE or STALE_RECORD: at an instant of the call nobody held the lock. |
| KernelStatus.VerdictsFound | trader/runtime_identity.py:253-311 | Conversely, when all reads succeed in a steady situation, the verdict is RUNNING, or NONE or STALE_RECORD, as it should be. |
| KernelStatus.AliveBetween | trader/runtime_identity.py:285-286 | A process that existed before an instant and is alive after it was alive at it, because a pid with its start ticks never comes back. |
| KernelStatus.InspectSound | trader/runtime_identity.py:132-150 | A verified inspection names the process that held the lock when the record was read; absence means the lock was seen free. |
| KernelStatus.InspectAnswers | trader/runtime_identity.py:132-150 | Which state an inspection gives, and when it is verified, on what it read; a free lock beside a legacy process is always LEGACY_UNLOCKED. |
| KernelStatus.ProbeLooksRunning | trader/runtime_identity.py:136-138 | From every reachable situation with a free lock the probe of any process gives an unverified RUNNING while no instance holds the lock; one started process is such a situation. |
| KernelStatus.StopKernel | trader/runtime_identity.py:366-387 | Only a verified and re-verified process is signalled; the exit code says exactly whether the lock was seen free, was not in time, or nothing was signalled. |
| KernelStatus.StopSignalsHolder | trader/runtime_identity.py:375-378 | The process signalled held the lock during the call and was alive from then to the last check. |
| KernelStatus.UnreadReleaseMisleads | trader/runtime_identity.py:354-363 | Without readable records neither holds: after a release that could not read its record, a probe by another process makes the inspection a verified RUNNING of a process that is alive and holds the lock at no instant of the call. |
| KernelStatus.TwoProcessesPublished | trader/runtime_identity.py:323-343 | A reachable run in which a kernel has published beside a second process, from which that happens. |
| RowCodec.UpdateDigest | scripts/compact_journal.py:30-38 | The update loop feeds exactly the encoding of the row. |
| RowCodec.KnownValues | scripts/compact_journal.py:30-38 | The bytes of one value of each kind. |
| RowCodec.KnownRow | scripts/compact_journal.py:30-31 | The mark and the length in front of the values of a row. |
| RowCodec.ParseUndoesStream | scripts/compact_journal.py:30-38 | A parser recovers from the stream every sequence of typed rows: values, types, order, columns and count. |
| RowCodec.StreamInjective | scripts/compact_journal.py:150 | Two tables have equal streams exactly when they have equal rows. |
| RowCodec.StreamUndoesParse | scripts/compact_journal.py:30-38 | No other byte stream is accepted: what parses is the stream of what it parses to. |
| RowCodec.NumberOfBytes | scripts/compact_journal.py:31-38 | The eight big-endian bytes determine the number. |
| Migration.Migrator.CopyTable | scripts/compact_journal.py:80-110 | Copying a table, whatever fails on the way, inserts the transformed rows in order, digests the source rows and records every event. |
| Migration.Migrator.VerifyTable | scripts/compact_journal.py:140-153 | Verification of a table passes only if what it resolves to has the count and stream of the source; without faults exactly then. |
| Migration.Migrator.VerifyEvents | scripts/compact_journal.py:154-162 | Passing means that every recorded event was found again by its id with the same identity and detail; without faults only a changed one fails. |
| Migration.Migrator.Verify | scripts/compact_journal.py:133-174 | For any contents of the destination: acceptance means that schema and all resolved tables equal the source; without faults it is accepted exactly then. |
| Migration.Migrator.Copy | scripts/compact_journal.py:74-120 | A complete copy holds all transformed rows; a failed or killed one has neither mark nor manifest of success. |
| Migration.Migrator.Attempt | scripts/compact_journal.py:74-127 | The steps under the handler: VERIFIED is written only after verification, and first in the database. |
| Migration.Migrator.Migrate | scripts/compact_journal.py:60-130 | At every end, by return, failure, interruption or kill: manifest VERIFIED implies database VERIFIED, which implies a complete copy in which every table equals the source; a recorded failure is never VERIFIED, a return means that no step failed, and only a kill leaves a manifest behind that says neither; and without faults the migration succeeds exactly on the migratable journals, unless a requested stop is reached with rows that can all be copied, when it ends as INTERRUPTED. |
| Migration.MigratableTable | scripts/compact_journal.py:94-102 | A table copies and reads back as itself exactly when each of its events is migratable: no bytes in its identity columns, which go into a JSON record, and for a detail a text that is transformed or resolves to itself, or none that would have to be transformed. |
| Migration.BareProvenanceFails | scripts/compact_journal.py:94-102 | One provenance event without detail: the journal does not migrate, whatever the evidence store. |
| Migration.BlobSubjectFails | scripts/compact_journal.py:97-98 | Nor does a journal with one event whose subject is a blob. |
| Migration.CopyFaithful | scripts/compact_journal.py:133-153 | A complete copy is faithful exactly when every event is migratable. |
| Migration.EventsMatch | scripts/compact_journal.py:154-159 | In a faithful destination every event is found again under its id. |
| Migration.MatchIs | scripts/compact_journal.py:154-160 | An event that is found again is in a row of its id that equals it in every column but the detail, and in that once it is resolved. |
| CoveragePlan.Reconcile | scripts/cognition_coverage_audit.py:252-289 | The baseline is accepted exactly when members, grid, candles, coverage and counts agree; candles off the grid or repeated are refused as such. |
| CoveragePlan.ReadCandles | scripts/cognition_coverage_audit.py:262-270 | The candle loop accepts exactly distinct candles on the grid, and indexes all of them. |
| CoveragePlan.KeysAddUp | scripts/cognition_coverage_audit.py:271-289 | Present and missing keys partition members times grid, each key once, and their numbers add up. |
| CoveragePlan.RequestFor | scripts/cognition_coverage_audit.py:309-329 | A request starts at the last bar before the first gap and reaches the last open; apart from unmappable symbols it is refused only when no request could do that within the limits. |
| CoveragePlan.BuildPlan | scripts/cognition_coverage_audit.py:302-333 | A plan has one request for each affected symbol, in order, within both limits; apart from unmappable symbols a baseline is refused only when it has no such plan. |
| CoveragePlan.PlanCovers | scripts/cognition_coverage_audit.py:306-329 | Every missing key is asked for by exactly one request, and nothing else is asked for. |
| CoveragePlan.RequestPartition | scripts/cognition_coverage_audit.py:317-329 | Overlap and missing opens partition the grid from the start of the request on; the requested range and bar count cover it exactly when the window is a whole number of bars. |
| CoveragePlan.UnevenMissesLastBar | scripts/cognition_coverage_audit.py:302-329 | A baseline over two and a half bars whose last bar is missing: every request there can be ends before it. |
| CoveragePlan.OpensCount | scripts/cognition_coverage_audit.py:188-190 | The number of bars of a window, and whether its last bar ends with it. |
| CoverageFetch.ValidateKlines | scripts/cognition_coverage_audit.py:434-480 | A response is accepted exactly when every row is right and no open time repeats; its bars are those of its rows, inside the request, aligned, closed and consistent; and its errors are those of its rows. |
| CoverageFetch.RightRowIs | scripts/cognition_coverage_audit.py:447-475 | A row is right exactly with twelve fields, an aligned open time in the requested range, the close time of that bar, closed at retrieval, and five consistent numbers. |
| CoverageFetch.FirstProblem | scripts/cognition_coverage_audit.py:447-475 | And a row that is not right is given the first of the eight errors that is true of it. |
| CoverageFetch.Perform | scripts/cognition_coverage_audit.py:515-558 | The outcome that a response calls for. |
| CoverageFetch.CompareOverlap | scripts/cognition_coverage_audit.py:561-577 | A flag for exactly every overlap bar that is missing or differs, and for nothing else. |
| CoverageFetch.Settle | scripts/cognition_coverage_audit.py:744-754 | Of a valid response, the missing opens it returns are recovered with its bars and the others are absent. |
| CoverageFetch.Fetch | scripts/cognition_coverage_audit.py:725-761 | For any mix of responses: every key gets the status it deserves from its own request, nothing is attempted after a refusal for good, the stop names that refusal, and the flags are exactly those of the overlap bars that a valid response leaves out or gives otherwise. |
| CoverageFetch.OneStatus | scripts/cognition_coverage_audit.py:727-761 | There is a status that fits a key, and only one. |
| CoverageFetch.EveryKeyOnce | scripts/cognition_coverage_audit.py:767-774 | Every missing key has exactly one ledger entry, of the request that asked for it, and no other key has any. |
| CoverageFetch.CountsAddUp | scripts/cognition_coverage_audit.py:771-774 | The five counts add up to the missing keys. |
| CoverageFetch.VerifyRepaired | scripts/cognition_coverage_audit.py:620-642 | The check of the repaired candles passes exactly when the baseline is an untouched prefix and the rest are the recovered keys, each once and all missing before. |
| CoverageFetch.RepairedKeys | scripts/cognition_coverage_audit.py:599-605 | Recovered candles are disjoint from the baseline and on the grid. |
| CoverageFetch.NoGapIff | scripts/cognition_coverage_audit.py:775 | The repaired grid has no gap exactly when every missing key was recovered. |
| CoverageFetch.FetchAndRepair | scripts/cognition_coverage_audit.py:725-783 | The final accounting and the repaired-input check never refuse; the repaired input keeps the baseline and repeats no key; what it adds are exactly the recovered keys, each with the bar that the response of its own request gave; recovery is complete exactly when the repaired grid has no gap. |

## Left out

* Names of symbols: admission and coverage use their position in code-point order, since the code only compares them; text and bytes are modelled where they are encoded.
* Digests and hashes: taken as injective; a digest in the model is the value it was taken of. The stored digest of an unknown value is one that matches nothing.
* Floating point: prices, ratios and probabilities are exact reals; an unavailable average true range is an absent value. The rounding of salience to twelve digits is an input, as the key that ranks.
* Admission: source receipts and market provenance, the identity projection of the second observation schema, history coverage, free-text fields of rows, frozen containers, `owner_view` and `latest`.
- ReceiptChain.Journal.Persist: JSON and evidence encoding of the stored texts is not modelled; the pair is compared by value, and the section under the writer lock is one step because SQLite excludes other writers there.
* Calibration: random generators, process pools, log-space evaluation, reports, and the same arithmetic in the studentized and synthetic variants. Numbers that the code tests for finiteness enter as validity flags.
- Bootstrap.Run: draws are given as a sequence of outcomes for each hypothesis; how they are generated from random numbers is modelled only for the block indices.
- BinomialBounds.BinomialBounds: for errors above one half order is not promised, because it fails; BoundsOrderedIff gives the exact condition.
* Exit shadow: SQLite, contract validation and freezing, collection from the network, and the printed summaries. Bar identities and hashes that a report repeats are not modelled.
- ShadowLedger.Ledger.Update: visits opportunities in the order of recording instead of by key, which changes nothing but the order of new gaps (UpdateInAnyOrder), and leaves out the printed summary.
- ExitReplay.Replay: requires a positive average true range at the entry bar and positive contract numbers, which `update` and the validated protocol establish before every call.
* Kernel identity: git, /proc formats, argument parsing and the signal itself. The gap between the last check and the signal is a race of the operating system; the statement is about the check. Binding is taken to happen only between acquisition and release, and a pid with its start ticks never to come back. The heartbeat is bound but not read by the status reader.
* Migration: page-level behaviour of SQLite, blobs and compression. Tables are sequences of rows in the order in which both sides read them; `sqlite_sequence` is one more table; a source that already has a representation row is not modelled.
- Migration.Migrator.Verify: blob, integrity and foreign-key checks are steps that may fail, without saying when.
- CoverageFetch.ValidateKlines: the optional taker volume that is kept beside a recovered bar is not modelled.
- CoverageFetch.VerifyRepaired: covers the candles; membership, participation, decision times, metadata and source tags are copied unchanged or are constants, and the loader's own rejection of rows is not part of this model.
* Coverage: transport, file hashes, canonical JSON, the replay of the cognition history and the report. The comparison of overlap bars is exact on the five numbers.
