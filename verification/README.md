# Ondo USDY: subscriptions, redemptions, prices

This project models the USDY subscription and redemption protocol and proves properties of it that hold
over every run: any finite sequence of external calls, by anyone, under any block times, lists and prices.

| module | what it models |
|---|---|
| `Words`, `Rounding`, `Sums` | 256-bit words and calls that may revert; floor and ceiling division, compounding; totals over logs and mappings |
| `RateCheck` | the oracle limited to 1% every 23 hours, down to its assembly `mulDivUp` |
| `ComparisonCheck`, `ComparisonReach` | the oracle compared with a Chainlink reference; the prices it can reach |
| `Pricers`, `SyncedPricer` | the price log, and the pricer that keeps either oracle in step |
| `Allowlist`, `Tokens` | who may hold USDY; EIP-20 ledgers and the transfer hook |
| `HubMath`, `Books`, `Hubs` | conversions and fees; the hub's records as the replay of its event log; every external call as a function from states to states |
| `Managers` | the `USDYManager` contract as an object over its two tokens, each method proved to do what `Hubs` prescribes |
| `Settlement`, `HubCalls`, `HubEffects`, `HubRuns` | what a redemption batch pays; exactly when each call succeeds and what it changes; what holds over whole runs |
| `Protocol` | hub, pricer and oracle together |

`dafny verify dfyconfig.toml` checks everything.

How to read it:

- A function whose name starts with `Try` is an external call: `None` is a revert, and a reverting call leaves
  the whole state unchanged. Classes carry the contracts' fields; each method's `Transacts` clause says that it
  ends in the prescribed state or, reverting, in the state it started from.
- The hub's records are written only together with an event. `Enabled` says when an event may be emitted,
  `Apply` what it writes, `Replay` folds a log, and a log is `Legal` when each event was enabled when emitted.
  Every reachable hub has a legal log and the records that log replays to, so the run properties are
  statements about legal logs. Conditions such as "no overwrites" or "only the hub mints" are conditions on
  the log, which records every overwrite and every other mint.
- Each call has its own context: sender, block time, whether the sender holds the role, the hub's lists, the
  token's lists and pause flag, whether the token lets the hub mint, what the pricer at each address answers. All
  may change between calls, which covers the list setters; which pricer the hub asks is its own state. Anything
  may happen to the collateral ledger between calls. Block times are positive and otherwise unconstrained.
- All amounts are 256-bit and checked as in the source. Block times and price timestamps are unbounded naturals.

Where the code and its documentation differ, the code is modelled:

- contracts/PricerWithOracle.sol:101-102 says the pointer's timestamp is always at most the oracle's. Since
  `addPrice` does not bound its timestamp by the block, that can fail (`FutureTimestampMovesPointerBack`);
  `PointerLatestOverRuns` and `SkippedCheckIsExact` say exactly when it holds.
- contracts/rwaOracles/RWAOracleExternalComparisonCheck.sol:136 speaks of a change below the limit; the code
  accepts a truncated change equal to it. So changes just below 201 basis points pass, and deviations from the
  reference of 75 basis points and more: 76 is the least whole limit that holds for opposite changes, 75 for the
  others (`DeviationIsSharp`, `TrueDeviation`).
- The same oracle accepts any initial price, and any round whose answer is zero. A non-positive price and a stored
  zero are exactly what leaves it unable to move ever again (`StuckExactly`, `ZeroAnswerIsStoredAndFinal`). A small
  positive price can be unable to follow a reference change between 75 and 274 basis points (`CanAlwaysMove`).
- Deposited collateral is not always minted or still owed: contracts/RWAHub.sol:158-163 overwrites whatever record
  `addProof` left under the next id, and line 329 tests only the user. `DepositConservation` counts what is lost,
  `NothingLostExactly` says when nothing is, and `SubscriptionLosesProof` and `ProofLosesProofOfNobody` are runs that
  lose deposits.
- A redemption batch and its separate claims (contracts/RWAHub.sol:262-304) can differ in success when the payer is
  also paid, as fees move once in the one case and per id in the other (`BatchAndSeparateSucceedExactly`,
  `PaidPayersCanDiffer`).
- The repository's README.md:31 asks clients not to use price id 0; both price-id setters accept it, as does the model.

## Model

| member | source | states |
|---|---|---|
| Protocol.OracleBoundsPayouts | contracts/RWAHub.sol:262-304 | Hub, pricer and either oracle together: from zero supply, only the hub minting, no overwrites, the hub pointed at no other pricer, every price entering through the oracle, all collateral due on settled redemptions is at most (100/99)^K (rate-checked) or (10000/9799)^K (compared) of all collateral credited to deposits, K being the 23-hour windows since the oracle's creation |
| Protocol.RecordedPricesAreNear | contracts/PricerWithOracle.sol:56-106 | In every run whose prices enter through the oracle, any two recorded prices, whichever came first, are a factor of at most (100/99)^K or (10000/9799)^K apart: falling and rising prices are bounded alike |
| Protocol.OnePricePerId | contracts/RWAHub.sol:214-218 | While no `updatePrice` succeeds and the hub is pointed at no other pricer, a price id means one price for ever: every mint under it used the recorded price, every redemption the recorded price or none |
| Protocol.RunsProject | contracts/RWAHub.sol:276 | A run of the whole protocol projects to a hub run under the pricer's answers and to a pricer run, so every theorem about either transfers |
| HubRuns.Solvency | contracts/RWAHub.sol:141-304 | Over every run: mints at prices of at least p and redemptions at prices of at most q give due * p <= credited * q (zero initial supply, only the hub mints, no overwrites), despite every rounding |
| HubRuns.SolvencyAtAPrice | contracts/RWAHub.sol:689-731 | The case p = q: what is due on redemptions, fees included, never exceeds what was credited to deposits |
| Books.RedemptionConservation | contracts/RWAHub.sol:239-304 | Without redeemer overwrites, RWA burned by requestRedemption equals outstanding plus settled amounts; ids not yet issued or issued off chain hold nothing, whatever price ids were set on them |
| Books.DepositConservation | contracts/RWAHub.sol:158-163 | Without depositor overwrites, outstanding deposits, minted deposits and the amounts of replaced records add up to the credited collateral exactly |
| Books.NothingLostExactly | contracts/RWAHub.sol:158-163 | Outstanding plus minted deposits equal the credited collateral if and only if no record holding an amount was ever replaced |
| HubRuns.SubscriptionLosesProof | contracts/RWAHub.sol:158-163 | First way to lose a deposit, as a run from deployment: addProof under the first id, then any subscription that would succeed without it; the record is the subscription's, and credited exceeds outstanding plus minted by exactly the proven amount |
| HubRuns.ProofLosesProofOfNobody | contracts/RWAHub.sol:329-332 | Second way, as a run from deployment: addProof for user 0 and then for a user under the same id, since only the user is tested |
| Books.RedemptionIdsIssuedOnce | contracts/RWAHubOffChainRedemptions.sol:65-83 | The counter shared by on-chain and off-chain requests issues each redemption id at most once, to one of the two |
| Books.MintAtMostOnce | contracts/RWAHub.sol:207-231 | For every deposit id: completed mints, plus one if the record is live, never exceed the creations of that record |
| Books.SettleAtMostOnce | contracts/RWAHub.sol:262-304 | The same for redemption settlements of a non-zero amount |
| Books.RedemptionIdPaysOnce | contracts/RWAHub.sol:262-304 | Without overwrites a redemption id pays a non-zero amount at most once in any run |
| Books.SettlementUsesTheAssignedPrice | contracts/RWAHub.sol:354-395 | Without overwrites every mint, and every non-zero redemption settlement, used the only non-zero price id assigned since the record's latest creation |
| Books.TimeGate | contracts/usdy/USDYManager.sol:87-141 | Every mint happens at or after the claimable timestamp most recently set for its id; that timestamp was not in the past when set, and no mint of the id came in between |
| Books.NewGateBetweenMints | contracts/usdy/USDYManager.sol:87-98 | Between two mints of one id its claimable timestamp was set again |
| Books.MintedIsCovered | contracts/RWAHub.sol:689-696 | RWA minted at prices of at least p is covered by the deposits: the floors never add up in the users' favour |
| Books.DueIsCovered | contracts/RWAHub.sol:705-711 | Collateral due at prices of at most q is covered by the RWA redeemed |
| Hubs.StepKeepsInv | contracts/RWAHub.sol:141-471 | Every external call keeps: the log is legal, the records are its replay, fees are at most 100%, balances add up to the supply, supply plus burned never exceeds minted |
| Hubs.RunKeepsInv | contracts/RWAHub.sol:88-130 | The invariant holds in every state of every run from deployment |
| HubRuns.RecordsOverRuns | contracts/RWAHub.sol:141-304 | The deposit equation, redemption conservation and supply conservation over whole hub runs |
| HubRuns.SettledAtMostOnceOverRuns | contracts/RWAHub.sol:207-304 | Settlement at most once, over whole hub runs |
| HubRuns.MintsAreGatedOverRuns | contracts/usdy/USDYManager.sol:87-141 | Over whole hub runs every mint respects the latest gate set for its id, with no mint of the id in between, and uses the only price id assigned since its record was created |
| HubRuns.RedemptionsUseTheAssignedPriceOverRuns | contracts/RWAHub.sol:262-395 | Over whole hub runs without overwrites every non-zero redemption settlement uses the only price id assigned since its record was created |
| HubRuns.RepeatedIdReverts | contracts/usdy/USDYManager.sol:87-98 | A claimMint batch that names an id twice reverts as a whole |
| HubRuns.FrozenOverRuns | contracts/usdy/USDY.sol:84-128 | While a non-zero account stays blocked, sanctioned or not allowed, no call by anyone changes its USDY balance |
| HubRuns.FrozenDepositReverts | contracts/RWAHub.sol:193-231 | A claimMint batch that contains the deposit of a frozen account reverts |
| HubRuns.MissingPrice | contracts/RWAHub.sol:693-710 | Under a price id without a price a deposit cannot be claimed, while claiming a redemption deletes its record, logs a settlement of zero and moves no collateral |
| HubRuns.NoPricerNoClaims | contracts/RWAHub.sol:208-274 | Until setPricer has named a pricer every non-empty batch of either kind reverts |
| HubRuns.NoRoleNoPayout | contracts/RWAHub.sol:322-624 | In a run from zero supply without a single call by a role holder no redemption gets a price id, no claimable timestamp is set, nothing is ever minted or settled, and the supply stays zero |
| Settlement.BatchPaysExactly | contracts/RWAHub.sol:262-304 | Whoever pays and whoever is paid: a successful batch has distinct ids, takes exactly the sum due on the records as they stood from the payer, credits users and fee recipient exactly, and its fees fall short of the fee on the sum by at most n - 1 units |
| Settlement.ClaimRedemptionSucceedsExactly | contracts/RWAHub.sol:262-304 | A batch succeeds exactly when redemptions are not paused, the ids are distinct, each record as it stood can be quoted, the fees fit a word and the payouts are affordable |
| Settlement.BatchAndSeparateSucceedExactly | contracts/RWAHub.sol:262-304 | Exactly when a batch succeeds and exactly when its ids claimed one call at a time do, on the initial records: the same conditions for both, except that each has its own least balance of the payer, and that the batch adds up its fees in one word |
| Settlement.BatchRefinesSeparateClaims | contracts/RWAHub.sol:262-304 | A batch and its separate claims leave the same records, log, balances and allowances whenever both succeed; with fees to somebody else the batch succeeds whenever they do, with fees back to the payer they succeed whenever it does; both alike if the payer holds the sum due or is not itself paid |
| Settlement.BatchWithFeesToPayer | contracts/RWAHub.sol:299-303 | When the fees return to the payer, also one of the users or not, a batch succeeds exactly when the separate claims do and the payer holds all that is due to others, fees included |
| Settlement.PaidPayersCanDiffer | contracts/RWAHub.sol:286-303 | Runs from deployment to hubs where only the batch succeeds (1667 bps, dues of 60 to a user and 54 to the payer out of 100) and where only the separate claims do (2000 bps back to the payer, dues of 50 and 55) |
| Settlement.PayAllExact | contracts/external/openzeppelin/contracts/token/ERC20.sol:180-279 | A list of transferFroms out of one account goes through exactly when no party is the zero address, the allowance covers the total and the running balance every single payout, and then moves every balance and the allowance by its share |
| Settlement.SettleEachPays | contracts/RWAHub.sol:265-303 | The settling loop with its accumulated fee is one list of payouts on the quotes of its records |
| Settlement.FeeOfTotal | contracts/RWAHub.sol:676-680 | Floored fees of n records lie between the fee on their sum less n - 1 units and that fee |
| HubCalls.SubscriptionMovesAmount | contracts/RWAHub.sol:141-182 | A subscription takes exactly its amount from the sender: the floored fee to the fee recipient, the rest to the asset recipient and into the new record, even if some of these accounts coincide; nothing else moves |
| HubEffects.SubscriptionExactly | contracts/RWAHub.sol:141-182 | requestSubscription succeeds exactly when not paused, the sender is on neither list, the minimum is met, nothing overflows and fee and deposit are affordable; it writes one record, one event, one allowance and no more |
| HubEffects.AddProofExactly | contracts/RWAHub.sol:322-340 | addProof succeeds exactly for the role, a user on neither list and an id without a user; it writes exactly the record and the event |
| HubCalls.CreationReplaces | contracts/RWAHub.sol:158-332 | A successful requestSubscription or addProof replaces exactly the amount its id held; addProof only that of a record without a user |
| HubEffects.RedemptionRequestExactly | contracts/RWAHub.sol:239-251 | requestRedemption succeeds exactly when not paused, the minimum is met, an id is left and the caller's RWA, allowance and hook permit the burn; it burns exactly the amount, uses up the allowance, takes the next id and leaves the record |
| HubEffects.OffChainRequestExactly | contracts/RWAHubOffChainRedemptions.sol:65-83 | The same off chain, with its own pause and minimum; it takes an id and leaves no record |
| HubEffects.ClaimMintPays | contracts/RWAHub.sol:193-231 | After a successful claimMint every account's RWA balance, and the supply, have grown by exactly what the new events say, one event per id describing the record as it stood; records and timestamps are gone and nothing else has changed |
| HubCalls.ClaimMintSucceedsExactly | contracts/RWAHub.sol:193-231 | claimMint succeeds exactly when subscriptions are not paused, the ids are distinct, each record as it stood can be claimed, and the supply has room for all they mint |
| HubEffects.DepositPricesSucceedExactly | contracts/RWAHub.sol:354-372 | setPriceIdForDeposits succeeds exactly for the role, lists of one length, and existing records without price id, an id being repeated only after a zero price id |
| HubEffects.DepositPricesChange | contracts/RWAHub.sol:354-372 | Each listed record gets the last price id listed for it; one event per pair; nothing else changes |
| HubEffects.RedemptionPricesSucceedExactly | contracts/RWAHub.sol:380-395 | The same for redemptions, whose records need not exist |
| HubEffects.RedemptionPricesChange | contracts/RWAHub.sol:380-395 | The same changes for redemptions |
| HubEffects.ClaimableTimestampExactly | contracts/usdy/USDYManager.sol:128-141 | setClaimableTimestamp succeeds exactly for the role and a timestamp that is not past; it gives exactly the listed ids exactly that timestamp, one event each, and changes nothing else |
| HubEffects.RestrictedPayeeReverts | contracts/usdy/USDYManager.sol:69-76 | A redemption batch containing the record of a user on the blocklist or on the sanctions list reverts |
| HubEffects.QuoteExactly | contracts/RWAHub.sol:265-290 | A record can be settled exactly when its user is on neither list, it has a price id, the hub has a pricer and nothing overflows; due and fee are one floor division each |
| HubEffects.ClaimRedemptionExactly | contracts/RWAHub.sol:262-304 | claimRedemption succeeds exactly when not paused, the ids are distinct, each record as it stood can be quoted, the fees fit a word and the payouts are affordable |
| HubEffects.ClaimRedemptionClears | contracts/RWAHub.sol:262-304 | It deletes exactly the listed records, emits one event per id describing the record as it stood, uses up the payer's allowance by the sum due, and changes no other field |
| HubEffects.OverwritesExactly | contracts/RWAHub.sol:412-471 | Both overwrites succeed exactly for the role and a user on neither list, and write exactly the given record and event |
| HubEffects.SettingsExactly | contracts/RWAHub.sol:479-624 | A setter succeeds exactly for the role, fees of at most 10000 bps and minimums of at least 10000 units, and changes its own setting alone |
| HubRuns.NoApprovalNoSpending | contracts/external/openzeppelin/contracts-upgradeable/token/ERC20/ERC20Upgradeable.sol:196-205 | In a run from an empty token an owner that never approves a spender is never spent from by it, neither by transferFrom or burnFrom nor, if it is the hub, by a redemption request |
| HubCalls.GuardedCallsRevert | contracts/RWAHub.sol:587-638 | Paused calls, calls concerning a user on the blocklist or the sanctions list, and role calls without the role revert |
| HubMath.RoundTripExact | contracts/RWAHub.sol:689-731 | Redeeming at the same price what a deposit minted loses exactly the rounded-up value of what the mint could not represent |
| HubMath.RoundTripBound | contracts/RWAHub.sol:689-731 | With unit = 1e18 * M: d - ceil((p - 1) / unit) <= r <= d, and a loss of at most one collateral unit when p <= unit + 1 |
| HubMath.RoundTripOfCalls | contracts/RWAHub.sol:689-731 | The round trip of a deposit through the checked arithmetic of the helpers: it returns at most the deposit, short by at most the bound above |
| HubMath.ReverseRoundTripOfCalls | contracts/RWAHub.sol:689-731 | The round trip of a redemption through the helpers never mints more RWA than was redeemed |
| HubMath.ReverseRoundTrip | contracts/RWAHub.sol:689-731 | Minting what a redemption of x paid gives at most x |
| HubMath.SplitDeposit | contracts/RWAHub.sol:689-696 | Splitting a deposit never mints more, and costs at most one unit |
| HubMath.SplitRedemption | contracts/RWAHub.sol:705-711 | Splitting a redemption never pays more, and costs at most one unit |
| HubMath.RedemptionAmountIsFloor | contracts/RWAHub.sol:705-731 | The two nested floor divisions are one floor |
| HubMath.MintAmountExactly | contracts/RWAHub.sol:689-731 | A mint amount is computed exactly for a non-zero price and a scaled deposit of 256 bits, and is one floor division of deposit * multiplier * 1e18 |
| HubMath.RedemptionAmountExactly | contracts/RWAHub.sol:705-731 | A redemption amount is computed exactly for a product of 256 bits, a zero price included, and is one floor division by multiplier * 1e18 |
| HubMath.FeeExactly | contracts/RWAHub.sol:676-680 | A fee is computed exactly for a product of 256 bits and is one floor division by 10000 |
| Managers.USDYManager.constructor | contracts/RWAHub.sol:88-130 | Fresh hub: empty records, counters at 1, fees 0, no pricer; the run invariant holds over an empty token |
| Managers.USDYManager.RequestSubscription | contracts/RWAHub.sol:141-182 | Does exactly what the state machine prescribes, or reverts with the state as it was |
| Managers.USDYManager.AddProof | contracts/RWAHub.sol:322-340 | Likewise; refuses an id whose record has a user |
| Managers.USDYManager.ClaimOne | contracts/usdy/USDYManager.sol:87-98 | Likewise; both gates, the price and the mint |
| Managers.USDYManager.ClaimMint | contracts/RWAHub.sol:193-200 | Likewise; the loop rolls back everything when one id fails |
| Managers.USDYManager.SetClaimableTimestamp | contracts/usdy/USDYManager.sol:128-141 | Likewise |
| Managers.USDYManager.RequestRedemption | contracts/RWAHub.sol:239-251 | Likewise |
| Managers.USDYManager.RequestRedemptionServicedOffchain | contracts/RWAHubOffChainRedemptions.sol:65-83 | Likewise; takes an id without a record |
| Managers.USDYManager.SettleOne | contracts/RWAHub.sol:268-291 | Likewise; one turn of the settling loop |
| Managers.USDYManager.ClaimRedemption | contracts/RWAHub.sol:262-304 | Likewise; the loop with its accumulated fee |
| Managers.USDYManager.SetPriceIdForDeposits | contracts/RWAHub.sol:354-372 | Likewise |
| Managers.USDYManager.SetPriceIdForRedemptions | contracts/RWAHub.sol:380-395 | Likewise |
| Managers.USDYManager.OverwriteDepositor | contracts/RWAHub.sol:412-435 | Likewise |
| Managers.USDYManager.OverwriteRedeemer | contracts/RWAHub.sol:448-471 | Likewise |
| Managers.USDYManager.Configure | contracts/RWAHub.sol:479-624 | Does what the state machine prescribes, for each setter, setPricer included, and each pause switch, and leaves records, log and tokens alone |
| Managers.TransactionKeepsInv | contracts/RWAHub.sol:141-471 | Whatever an external call of the object did, succeed or revert, the run invariant holds after it |
| RateCheck.MulDivUpIsCeiling | contracts/rwaOracles/RWAOracleRateCheck.sol:128-144 | On wrapping 256-bit words the assembly reverts exactly for a zero denominator or an overflowing product, and is otherwise the mathematical ceiling |
| RateCheck.SetPriceAcceptsExactly | contracts/rwaOracles/RWAOracleRateCheck.sol:81-121 | setPrice accepts exactly a positive price, 23 hours on, with 100 * abs(new - old) <= old and abs(new - old) * 10000 in 256 bits |
| RateCheck.WindowIsSharp | contracts/rwaOracles/RWAOracleRateCheck.sol:81-98 | An unchanged price is accepted 23 hours after the last update, and no price a second earlier |
| RateCheck.CreateExactly | contracts/rwaOracles/RWAOracleRateCheck.sol:51-63 | The constructor accepts exactly positive prices and stamps them with its block |
| RateCheck.CompoundedBounds | contracts/rwaOracles/RWAOracleRateCheck.sol:81-98 | After k accepted updates of any run, 99^k P0 <= 100^k Pk <= 101^k P0 and k windows have passed |
| RateCheck.ElapsedTimeBoundsPrice | contracts/rwaOracles/RWAOracleRateCheck.sol:81-98 | The prices reachable by a given time are bounded by the elapsed time alone |
| RateCheck.SmallPricesAreFixed | contracts/rwaOracles/RWAOracleRateCheck.sol:81-121 | A price below 100 never changes again in any run |
| RateCheck.EveryTargetIsReachable | contracts/rwaOracles/RWAOracleRateCheck.sol:81-121 | From every price of at least 100 every target of at least 99 is reached by a run all of whose updates are accepted |
| RateCheck.ReachablePrices | contracts/rwaOracles/RWAOracleRateCheck.sol:81-121 | The exact set of prices a positive price can ever become: itself, and every price of at least 99 if it is at least 100 |
| RateCheck.NeverBelow99 | contracts/rwaOracles/RWAOracleRateCheck.sol:81-121 | No run takes a price of at least 99 below 99 |
| RateCheck.RWAOracleRateCheck.constructor | contracts/rwaOracles/RWAOracleRateCheck.sol:51-63 | Stores the initial price and the block time |
| RateCheck.RWAOracleRateCheck.SetPrice | contracts/rwaOracles/RWAOracleRateCheck.sol:81-98 | Transacts exactly as specified; from a positive price it succeeds exactly for an admissible one |
| ComparisonCheck.SetPriceAcceptsExactly | contracts/rwaOracles/RWAOracleExternalComparisonCheck.sol:147-217 | The exact acceptance region: usable round, change strictly within 201 bps, and truncated changes within 74 of each other unless the reference moved by 275 bps or more |
| ComparisonCheck.WindowsAreSharp | contracts/rwaOracles/RWAOracleExternalComparisonCheck.sol:147-217 | The update window is 23 hours and the age limit of a round 25 hours, both to the second |
| ComparisonCheck.CreateExactly | contracts/rwaOracles/RWAOracleExternalComparisonCheck.sol:85-113 | The constructor accepts exactly a consistent round of at most 25 hours of an 8-decimals reference, with any price, and stamps them with its block |
| ComparisonCheck.TrueDeviation | contracts/rwaOracles/RWAOracleExternalComparisonCheck.sol:171-195 | The untruncated relative changes of price and reference differ by less than 76 bps, by less than 75 when they are not opposite |
| ComparisonCheck.DeviationIsSharp | contracts/rwaOracles/RWAOracleExternalComparisonCheck.sol:171-195 | Updates accepted right after construction that are not within 74 bps, nor within 75 bps, of the reference, and one that moves the price by more than 200 bps |
| ComparisonCheck.IgnoreThresholdIsExact | contracts/rwaOracles/RWAOracleExternalComparisonCheck.sol:183-186 | A price change that passes both limits exists exactly for reference changes of at most 274 bps |
| ComparisonCheck.CanAlwaysMove | contracts/rwaOracles/RWAOracleExternalComparisonCheck.sol:147-217 | Some price is accepted if and only if price and stored answer are positive, the round is usable, the scaled reference change fits a signed word, and the least whole-unit move towards the reference neither overshoots nor overflows |
| ComparisonCheck.FollowingByPrice | contracts/rwaOracles/RWAOracleExternalComparisonCheck.sol:171-195 | Representable prices of at least 10000 can follow every reference change; prices of at most 49 none of 75 to 274 bps |
| ComparisonCheck.FollowingInBetween | contracts/rwaOracles/RWAOracleExternalComparisonCheck.sol:171-195 | In between no single limit decides: 5000 can follow every reference change, 5001 not one of 274 bps |
| ComparisonCheck.CompoundedBounds | contracts/rwaOracles/RWAOracleExternalComparisonCheck.sol:147-217 | After k >= 1 accepted updates of any run from a positive price, 9799^k P0 < 10000^k Pk < 10201^k P0; the price stays positive and k windows have passed |
| ComparisonReach.ReachablePrices | contracts/rwaOracles/RWAOracleExternalComparisonCheck.sol:147-217 | The exact set of prices that runs over all usable rounds can make of an oracle: its own and, from a price of at least 50 with a non-zero stored answer, every price from 49 up; the routes keep the reference within its own limits and need less than 32000 years |
| ComparisonReach.FloorOfPrices | contracts/rwaOracles/RWAOracleExternalComparisonCheck.sol:147-217 | No run takes a price of at least 50 below 49, or changes a positive price below 50 |
| ComparisonCheck.StuckForever | contracts/rwaOracles/RWAOracleExternalComparisonCheck.sol:147-217 | A non-positive price, which the constructor stores, or a stored answer of zero: no run ever accepts an update |
| ComparisonCheck.StuckExactly | contracts/rwaOracles/RWAOracleExternalComparisonCheck.sol:147-217 | Conversely these are the only oracles no run can change, while the next window fits 256-bit time |
| ComparisonCheck.StoredAnswerIsNotNegative | contracts/rwaOracles/RWAOracleExternalComparisonCheck.sol:95-217 | In every run from construction the stored answer is at least zero, as the exact conditions above suppose |
| ComparisonCheck.ZeroAnswerIsStoredAndFinal | contracts/rwaOracles/RWAOracleExternalComparisonCheck.sol:187-194 | A usable round answering zero counts as ignored, is stored with any price strictly within 201 bps, and no update in any later run is accepted |
| ComparisonCheck.TruncBounds | contracts/rwaOracles/RWAOracleExternalComparisonCheck.sol:262-268 | Truncating division, by divisors of either sign, leaves an error below the divisor's magnitude with the dividend's sign |
| ComparisonCheck.RWAOracleExternalComparisonCheck.constructor | contracts/rwaOracles/RWAOracleExternalComparisonCheck.sol:85-113 | Stores any initial price with a fresh round of an 8-decimals reference |
| ComparisonCheck.RWAOracleExternalComparisonCheck.SetPrice | contracts/rwaOracles/RWAOracleExternalComparisonCheck.sol:147-217 | Transacts exactly as specified, every check in the source's order |
| Pricers.PointerAgreesWithScan | contracts/Pricer.sol:55-116 | In every run the ids are 1..currentPriceId, exactly they hold a non-zero price, and latestPriceId is the unique first id with the largest timestamp (0 if all are 0) |
| Pricers.RecordsArePermanent | contracts/Pricer.sol:74-116 | A recorded id keeps its timestamp for ever and its price unless updatePrice names it |
| Pricers.CallsRecordWhatTheySay | contracts/Pricer.sol:74-116 | addPrice records exactly the given price under the next id; updatePrice changes exactly one price |
| Pricers.CallsSucceedExactly | contracts/Pricer.sol:74-116 | addPrice takes exactly non-zero prices while there are ids, updatePrice exactly non-zero prices for ids that have one |
| Pricers.RunIsHistory | contracts/Pricer.sol:55-116 | The log of every run is its history: the ids number the non-zero prices added, in order; each id holds the timestamp it was added with and the price last given to it |
| Pricers.Pricer.AddPrice | contracts/Pricer.sol:74-93 | Transacts exactly as specified |
| Pricers.Pricer.UpdatePrice | contracts/Pricer.sol:101-116 | Transacts exactly as specified |
| Pricers.Pricer.GetLatestPrice | contracts/Pricer.sol:55-57 | In every state reached from deployment, the price at the first id with the largest timestamp |
| Pricers.Pricer.GetPrice | contracts/Pricer.sol:64-66 | The recorded price; in every state reached from deployment zero exactly for ids never issued |
| SyncedPricer.AgreementOverRuns | contracts/PricerWithOracle.sol:32-120 | From construction on the latest price is the oracle's in every state with no outside setPrice and no updatePrice of the latest id since the last sync |
| SyncedPricer.AdvanceNeedsAndKeepsSync | contracts/PricerWithOracle.sol:69-72 | An addPrice that advances the pointer succeeds only where the prices agree and ends where they agree, the oracle stamped by the block |
| SyncedPricer.CatchUpRestoresAgreement | contracts/PricerWithOracle.sol:84-106 | After addLatestOraclePrice, successful or refused, price and timestamp agree |
| SyncedPricer.PointerLatestOverRuns | contracts/PricerWithOracle.sol:56-106 | In every state of a run the pointer holds the largest timestamp and the oracle's is not smaller, if and only if no advancing addPrice carried a timestamp later than its block |
| SyncedPricer.SkippedCheckIsExact | contracts/PricerWithOracle.sol:101-103 | addLatestOraclePrice keeps the pointer on the largest timestamp exactly when the oracle's is not before the one it replaces |
| SyncedPricer.FutureTimestampMovesPointerBack | contracts/PricerWithOracle.sol:101-103 | A run where the skipped check fails: a future-stamped price, an outside setPrice, a catch-up |
| SyncedPricer.AddPriceRecords | contracts/PricerWithOracle.sol:56-76 | addPrice records exactly the given price, advances exactly for a later timestamp, and otherwise leaves the oracle alone |
| SyncedPricer.CallsSucceedExactly | contracts/PricerWithOracle.sol:56-120 | addPrice takes every non-zero price while there are ids, out-of-order ones included, and only for a timestamp later than the latest asks for agreement and the oracle's consent; likewise exact conditions for the other calls |
| SyncedPricer.OtherCallsChange | contracts/PricerWithOracle.sol:84-120 | addLatestOraclePrice appends the oracle's price and timestamp and points to them, updatePrice changes one price, an outside setPrice the oracle alone |
| SyncedPricer.CreateExactly | contracts/PricerWithOracle.sol:32-46 | The pricer starts with the oracle's price and timestamp under id 1 |
| SyncedPricer.PricerWithOracle.constructor | contracts/PricerWithOracle.sol:32-46 | Records the oracle's price and timestamp under id 1 |
| SyncedPricer.PricerWithOracle.AddPrice | contracts/PricerWithOracle.sol:56-76 | Transacts over pricer and oracle object together; a refused oracle update rolls the whole call back |
| SyncedPricer.PricerWithOracle.AddLatestOraclePrice | contracts/PricerWithOracle.sol:84-106 | Transacts exactly as specified, reading the oracle object |
| Tokens.StepKeepsBalanced | contracts/external/openzeppelin/contracts-upgradeable/token/ERC20/ERC20Upgradeable.sol:275-344 | Every token call keeps the sum of all balances equal to the supply |
| Tokens.StepMovesExactly | contracts/external/openzeppelin/contracts-upgradeable/token/ERC20/ERC20Upgradeable.sol:275-344 | Every token call moves exactly its amount between exactly its accounts, and the supply by mints and burns only |
| Tokens.StepSucceedsExactly | contracts/external/openzeppelin/contracts-upgradeable/token/ERC20/ERC20Upgradeable.sol:275-390 | A token call succeeds exactly when no account is zero, the hook passes, mints and admin burns have the role, the From calls an allowance of 2^256 - 1 or at least the amount, the balance covers it and nothing overflows |
| Tokens.StepAllowancesExactly | contracts/external/openzeppelin/contracts-upgradeable/token/ERC20/ERC20Upgradeable.sol:169-390 | approve sets one allowance, the From calls use one up unless it is 2^256 - 1, and nothing else changes any |
| Tokens.HookExactly | contracts/usdy/USDY.sol:84-115 | The hook passes exactly when the token is not paused and giver, taker and a third-party sender are on neither list and are contracts or verified for a valid term |
| Tokens.StepSparesFrozen | contracts/usdy/USDY.sol:84-128 | No token call changes the balance of a frozen account |
| Tokens.FrozenCannotTakePart | contracts/usdy/USDY.sol:84-115 | A frozen account can neither send, receive, burn, be minted to, nor move other people's tokens |
| Tokens.Usdy.Mint | contracts/external/openzeppelin/contracts-upgradeable/token/ERC20/ERC20PresetMinterPauserUpgradeable.sol:81-87 | Transacts exactly as specified, hook included |
| Tokens.Usdy.Burn | contracts/usdy/USDY.sol:126-128 | Transacts exactly as specified, hook included |
| Tokens.Usdy.BurnFrom | contracts/external/openzeppelin/contracts-upgradeable/token/ERC20/ERC20BurnableUpgradeable.sol:44-47 | Allowance first, then the burn; rolled back together |
| Tokens.Usdy.TransferFrom | contracts/external/openzeppelin/contracts-upgradeable/token/ERC20/ERC20Upgradeable.sol:196-205 | Allowance first, then the transfer; rolled back together |
| Tokens.Erc20.TransferFrom | contracts/external/openzeppelin/contracts/token/ERC20.sol:180-279 | Allowance, then transfer, exactly as the collateral ledger prescribes and rolled back together; zero addresses are refused |
| Allowlist.AllowlistUpgradeable.IsAllowed | contracts/usdy/allowlist/AllowlistUpgradeable.sol:143-156 | The scan answers true exactly for contracts and accounts verified for some valid term |
| Allowlist.AllowlistUpgradeable.SetValidTermIndexes | contracts/usdy/allowlist/AllowlistUpgradeable.sol:121-132 | Replaces the list exactly when every index names a term |
| Allowlist.AllowlistUpgradeable.AddTerm | contracts/usdy/allowlist/AllowlistUpgradeable.sol:84-90 | Appends the term and makes it current |
| Allowlist.StepsSucceedExactly | contracts/usdy/allowlist/AllowlistUpgradeable.sol:84-248 | Indexes must name terms, and an account agrees only to a term it is not verified for yet |
| Allowlist.StepsChangeExactly | contracts/usdy/allowlist/AllowlistUpgradeable.sol:84-248 | What each successful step changes: its own list, index or status and no other; a new term becomes current |
| Allowlist.VerifiedExactly | contracts/usdy/allowlist/AllowlistUpgradeable.sol:163-248 | In every run an account is verified for a term exactly when the last successful status change of that pair was an admission |
| Allowlist.AllowedExactlyByAgreement | contracts/usdy/allowlist/AllowlistUpgradeable.sol:84-248 | In every run all valid indexes and the current one name existing terms, and an account is allowed exactly when it is a contract or the last status change for some now valid term admitted it |

## Left out

- Access control, reentrancy guards, proxies, factories and initializers: a role is a flag of the call, calls are
  atomic.
- Revert reasons and gas; the order of two checks that both revert is not observable in the model.
- ECDSA recovery in `addAccountToAllowlist`: whether the signature is the account's own over the term is an input.
- Blocklist and sanctions list contracts and their clients: sets that may change from call to call.
- `increaseAllowance` and `decreaseAllowance`: `approve` covers their effect on the ledger.
- The collateral token's own code (USDC) is not part of this model: it is a plain EIP-20 ledger whose allowances of
  2^256 - 1 are not used up, and which refuses zero addresses, like
  contracts/external/openzeppelin/contracts/token/ERC20.sol.
- Oracle, pricer and allowlist calls by accounts without the required role: they revert, so runs contain only calls that
  pass the role check.
- Scripts, deployment, interfaces without an implementation, and the OMMF token.
