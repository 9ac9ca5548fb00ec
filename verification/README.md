# Yield routing: a verified model

A dispatcher routes USDC between owners and five yield adapters (Kamino, MarginFi, Maple's syrupUSDC on Orca,
Jupiter's perpetuals pool, Drift's insurance fund). Governance whitelists and pauses adapters; an owner opens one
position per adapter, deposits, withdraws and reads its value. Dispatcher and adapter are separate programs: the
dispatcher moves tokens and routes, the adapter measures what the protocol did, keeps `total_shares`, and hands one
u64 back through the return-data slot.

## How it is built

* **The programs in place.** `Chain` holds the accounts as fields that methods reassign. `KaminoAdapter`,
  `MarginfiAdapter`, `MapleAdapter`, `JupiterAdapter` and `DriftAdapter` are the adapters' handlers, `CrossCall` is
  an invocation by bytes and account list, `Routing` builds those lists, `DispatcherProgram` has the seven
  instructions and the transactions around them. A handler that fails half-way leaves its changes to the
  transaction, which discards them.
* **The specification.** `AdapterSpec` and `DispatcherSpec` say what each instruction makes of the accounts
  (`Accounts.World`) as one transition function, `Step`, with runs over any sequence of actions. Every method is
  proved to agree with it, so the theorems about `Run` are theorems about the programs.
* **The specification in numbers.** `ProtocolCalls`, `Outcomes`, `Pricing`, `Enabled` and `Access` say of the same steps,
  without its functions and constants, which calls are made, what they leave, what a value is, when each
  instruction succeeds and how the others are refused.
* **The theorems.** `Effects` and `Inversion` take a successful step apart; on them stand `Conservation`,
  `PoolNeutrality`, `ReturnChannel`, `Replay`, `Governance`, `Solvency`, `PauseBracket` and `Isolation`;
  `Guarantees` puts the main ones beside the executed programs.
* **Arithmetic and bytes.** `KlendCpi`, `MarginfiCpi`, `MarginfiScan`, `OrcaCpi`, `JupCpi`, `DriftCpi` on `ProRata`,
  `Arithmetic` and `Machine`; `AdapterInterface` has the instruction and return-data codecs. The programs' u64, u128
  and i128 are written out, with every check, shift and cast where the code has it.

## What is assumed

* Program-derived addresses are injective in their seeds, so seeds stand for addresses; a signer is an identity.
* A token transfer moves the exact amount or fails.
* A protocol call (`Protocol.Invoke`) may move USDC between the position's pool and one vault of its market, write any
  share amount, any recorded supply and any prices, and leave any return data by any program. This is a restriction:
  four adapters call whatever executable program they are given with liquidity accounts nobody pinned, and such a
  program could move its own USDC elsewhere. That no other balance moves in a deposit or withdrawal rests on it.
  Nothing leaves the position without its signature, no USDC balance goes negative or over its width, and numbers
  fit the counters they are read from.
* A protocol call does not re-enter the dispatcher or an adapter, and nobody but the dispatcher calls the adapters.
  The adapters look only at the transaction's top-level program, and `position` need not sign `adapter_initialize`,
  so the programs do not enforce this themselves; the registry invariant, replay and isolation rest on it.
* Between instructions others may create token accounts, a position's pool and share account among them, move wallets
  and vaults, rewrite a market's supply and prices, send share tokens to a position, and, for MarginFi and Drift, make a share account say anything.
* A market is the set of accounts a position pinned when it was opened; two positions that pinned one Jupiter pool
  under two LP mints are in two markets, and one share token behind two markets is two share accounts here. Each position's share account is its own. Initialize creates it for Kamino,
  Jupiter and Maple; MarginFi and Drift record the account they are given.
* Recorded supply and shares are not checked against each other anywhere. The adapters check that the program they
  call is executable and that accounts are the recorded ones; only Kamino also compares the owner of what it reads
  (the reserve) with the program it calls, and Drift's value read takes a vault account that was never recorded.
  So the pro-rata bounds carry the hypothesis that recorded supply covers the shares read
  (`Solvency.SharesCovered`, step by step `Solvency.SupplyFollows`), and the exact conditions without it are
  `Solvency.KaminoSolventIff`, `Solvency.JupiterSolventIff` and `DriftCpi.StakeExceedsVaultIff`.
* Two further protocol promises are hypotheses of the theorems that need them, and of no others: in a given market a
  redemption burns at most the shares asked for (`Solvency.BurnsAtMostShares`), a given position's deposit takes at
  most the amount offered (`PoolNeutrality.TakesAtMostAmount`). Other markets and positions are not asked anything.

## Where code and comments differ

The model follows the code.

* `programs/marginfi-usdc/src/marginfi_cpi.rs:59-60` says the pre-shifted product never overflows and the precision
  loss is far below one base unit. It overflows exactly when the shifted value needs more than 64 bits
  (`MarginfiCpi.FailsExactly`, `MarginfiCpi.EveryShareValuePricedIff`, with `MarginfiCpi.ProductOverflows`), and
  the loss is below one unit on an exact range only (`MarginfiCpi.LossBelowOneUnitIff`, with `MarginfiCpi.LossCanBeLarge` outside it).
* `programs/maple-syrup/src/orca_cpi.rs:33-34` says the staged shifts keep the product from overflowing. That holds
  for every balance exactly up to a root price of 2^64 + 1 (`OrcaCpi.EveryBalancePricedIff`, with
  `OrcaCpi.ProductOverflows` just above).
* `programs/dispatcher/src/instructions/current_value.rs:12-14` calls the value read composable for an outer caller.
  The adapters check the top-level program, so it fails there; `Enabled.ValueSucceedsIff` says exactly when a value
  read succeeds.
* The written adapter standard calls `adapter_initialize` idempotent per position; the second call fails
  (`Enabled.AdapterInitializeIff`, `Enabled.InitializesOnce`). It lists
  `InsufficientShares` for every adapter; MarginFi takes any amount at or above the booked principal as "all".

## Model

| member | source | states |
|---|---|---|
| DispatcherProgram.ExecuteAll | programs/dispatcher/src/instructions/withdraw.rs:64-110 | The programs, run one transaction after another, reach exactly the accounts of the transition function's run, so every theorem about runs is about them; whatever remaining accounts are forwarded. |
| DispatcherProgram.Execute | programs/dispatcher/src/instructions/deposit.rs:64-106 | One transaction commits its handler's whole result or leaves no trace, even when the handler had already moved tokens. |
| DispatcherProgram.Dispatch | programs/dispatcher/src/lib.rs:22-73 | Each instruction reaches its own handler. |
| Guarantees.Serve | programs/dispatcher/src/instructions/deposit.rs:64-106 | Executing the programs on any actions from any starting accounts conserves USDC, keeps the registry invariant and leaves books that replay from both event logs; market by market, booked tokens are held if redemptions burn no more than asked, and recorded supply covers the shares read if it is kept up with what is minted. |
| Solvency.KaminoSolvent | programs/kamino-usdc/src/klend_cpi.rs:57-79 | In every state of every run the values of all positions in a reserve add up to at most its total liquidity, under two named hypotheses about that reserve alone: redemptions in it burned at most the shares asked for, and its recorded supply covers its positions' collateral in that state. |
| Solvency.KaminoSolventIff | programs/kamino-usdc/src/klend_cpi.rs:66-78 | In every state of every run the values fit the liquidity at all prices if and only if booked shares add up to at most the recorded supply, or that is zero; no hypothesis on the protocol. |
| Solvency.JupiterSolventIff | programs/jupiter-lp/src/jup_cpi.rs:43-58 | The same for the positions that pinned one pool and one LP mint: their values fit the pool's assets at all prices if and only if the mint's recorded supply covers the LP tokens they hold, or is zero. |
| Solvency.DriftSolvent | programs/drift-if/src/drift_cpi.rs:42-55 | If the market's recorded total covers the stakes read, their values add up to at most the vault they are priced from, whichever vault is passed; where the numbers fit a u64, they do so for every vault if and only if it covers them or is zero. |
| Solvency.MarginfiBounded | programs/marginfi-usdc/src/marginfi_cpi.rs:61-69 | Positions in one bank together report at most the exact value of all the shares read for them, whatever accounts those are read from. |
| Solvency.MapleBounded | programs/maple-syrup/src/orca_cpi.rs:35-43 | Positions in one whirlpool together report at most the exact spot value of all the syrupUSDC they hold, at any price. |
| Solvency.RunCovered | programs/drift-if/src/instructions/adapter_initialize.rs:37-50 | Nothing in the programs ties recorded supply to shares; a market stays covered along the run if calls for its positions mint recorded supply along with the shares and others burn, or send to its positions, only shares no position holds. Only routed steps take proof work here: for steps of others the hypothesis is the cover restated. |
| Solvency.StepCovered | programs/jupiter-lp/src/instructions/adapter_initialize.rs:38-49 | One such step keeps the market covered, and steps in other markets always do; for steps of others on the market itself the hypothesis already says so. |
| Solvency.RunBooked | programs/kamino-usdc/src/instructions/adapter_withdraw.rs:113-127 | Along every run in which redemptions in a market burn at most what was asked, its positions hold at least the tokens booked for them, whatever happens in other markets. |
| Solvency.StepBooked | programs/kamino-usdc/src/instructions/adapter_deposit.rs:113-127 | Every step keeps booked shares at or below held tokens in a Kamino, Jupiter or Maple market, whose share accounts initialize creates for the position. |
| Solvency.InitialSound | programs/dispatcher/src/instructions/initialize_registry.rs:23-30 | The invariants hold before anything of the system exists, whatever wallets, vaults and markets there are. |
| Access.WhitelistSucceedsIff | programs/dispatcher/src/instructions/whitelist_adapter.rs:12-72 | Whitelisting succeeds exactly for the registry's admin, an executable program without an entry, a name of at most 32 bytes, version 1 and fewer than 256 counted; it adds that one active entry and counts it. |
| Access.WhitelistRefusals | programs/dispatcher/src/instructions/whitelist_adapter.rs:16-50 | The error of the first of those conditions that fails. |
| Access.PauseSucceedsIff | programs/dispatcher/src/instructions/pause_adapter.rs:8-37 | Pausing and unpausing succeed exactly for the admin and an existing entry, of which they set the switch and nothing else; with the error otherwise. |
| Access.InitializeSucceedsIff | programs/dispatcher/src/instructions/initialize_registry.rs:7-30 | The registry is created exactly once, with its creator as admin and no entries counted. |
| Access.OnlyAdminChangesEntries | programs/dispatcher/src/instructions/whitelist_adapter.rs:16-22 | No step adds, removes or changes an entry but the admin's own whitelisting or pausing. |
| Access.EntriesNeedTheAdmin | programs/dispatcher/src/instructions/pause_adapter.rs:12-18 | Over any run in which the admin signs no governance instruction the entries stay as they are, whatever everybody else tries. |
| Access.RoutedRefusals | programs/dispatcher/src/instructions/deposit.rs:17-69 | A routed instruction refused by its own checks fails with the error of the first of them, before any token moves or adapter is called; past them it fails only for a transfer, the adapter or its return data, and says which. |
| Access.UncoveredDeposit | programs/dispatcher/src/instructions/deposit.rs:71-82 | A deposit its owner cannot cover fails with the token program's error. |
| Access.AdapterRefusals | programs/kamino-usdc/src/instructions/adapter_withdraw.rs:78-87 | The errors of an adapter's own checks: zero, more than 256 data bytes, more shares than booked (MarginFi apart), a top-level instruction that is not the dispatcher's. |
| Access.ComesBack | programs/dispatcher/src/routing.rs:107-160 | How the adapter's answer comes back: a failed call is AdapterMismatch, no eight bytes of its own MissingReturnData, and otherwise the bytes' value. |
| Access.AnswerRefusals | programs/dispatcher/src/routing.rs:140-194 | A redemption or value read that passes its own checks fails exactly as its adapter's answer says. |
| Access.AdapterNeedsAccounts | programs/kamino-usdc/src/instructions/adapter_withdraw.rs:32-38 | Without the position's state an adapter's deposit, redemption and value read fail. |
| Access.AdapterFailures | programs/drift-if/src/instructions/adapter_deposit.rs:72-84 | Past its checks an adapter fails with CpiFailed when a protocol call does and MathOverflow when what it measured cannot be booked or returned. |
| Access.EnvironmentSucceedsIff | programs/dispatcher/src/instructions/open_position.rs:43-48 | Exactly what others are taken to be able to do between instructions. |
| ProtocolCalls.CallsAre | programs/drift-if/src/instructions/adapter_withdraw.rs:80-89 | Which calls each adapter makes, one by one: Kamino refreshes before it deposits, redeems or reads; Drift opens with two and requests before it removes; MarginFi opens with one; every other instruction one call, every other read none. |
| ProtocolCalls.InvokeIff | programs/drift-if/src/drift_cpi.rs:57-62 | Exactly which outcomes the accounts let a call have, in numbers, and the accounts it leaves. |
| ProtocolCalls.TwiceLeaves | programs/kamino-usdc/src/instructions/adapter_withdraw.rs:106-116 | After two calls in a row the flows have added up and the second one's numbers stand. |
| ProtocolCalls.ForeignCallsAre | programs/dispatcher/src/routing.rs:102-111 | An adapter outside the repository is one call, signed but for a value read; the dispatcher itself is none. |
| Outcomes.WithdrawOutcome | programs/drift-if/src/instructions/adapter_withdraw.rs:79-104 | A successful redemption had its two calls (Kamino, Drift) or one (the others); its number is the USDC they moved to the pool, and shares and market are as the last call left them. |
| Outcomes.DepositOutcome | programs/kamino-usdc/src/instructions/adapter_deposit.rs:106-138 | A successful deposit had its two calls (Kamino) or one; its number is the last call's shares less those before (MarginFi: the principal), and the pool has what it had, the amount and what the calls moved. |
| Outcomes.ValueOutcome | programs/kamino-usdc/src/instructions/adapter_current_value.rs:61-66 | A value read had Kamino's refresh or, elsewhere, no call at all, and then nothing but log and return data differs. |
| Outcomes.OpenOutcome | programs/drift-if/src/instructions/adapter_initialize.rs:60-83 | A successful open leaves the position, an empty state and a share account that is empty or as MarginFi's one or Drift's second opening call left it. |
| Conservation.RunConserves | programs/dispatcher/src/instructions/withdraw.rs:76-102 | Over any run of all instructions and environment steps the USDC total over wallets, pools and vaults is constant. |
| Conservation.StepConserves | programs/dispatcher/src/instructions/deposit.rs:71-98 | Every single step, successful or not, conserves USDC, whatever the protocol answers. |
| Conservation.NoOverflow | programs/dispatcher/src/instructions/withdraw.rs:87-102 | In every state of a run that started with under 2^64 units, no transfer of a deposit, a payout or an owner fails because its destination would overflow. |
| Conservation.CallNeverOverflows | programs/kamino-usdc/src/instructions/adapter_deposit.rs:114-116 | With under 2^64 units in circulation a protocol call whose balances stay non-negative never meets the u64 limit. |
| PoolNeutrality.WithdrawSettles | programs/dispatcher/src/instructions/withdraw.rs:76-102 | Whatever the protocol does, a withdrawal pays the owner what the adapter reports and takes it from the vault; the pool ends as it began exactly when the report equals what was paid, which holds for all five adapters; no other balance moves. |
| PoolNeutrality.DepositSettles | programs/dispatcher/src/instructions/deposit.rs:71-98 | A deposit takes the amount from the owner, the vault gains what the protocol took and the pool changes by exactly the rest; no other balance moves. |
| PoolNeutrality.DustNeverShrinks | programs/dispatcher/src/instructions/deposit.rs:71-98 | Over any run in which the position's own deposits are taken at most in full, its pool's leftover never decreases, whatever other positions' protocols take. |
| PoolNeutrality.UnsignedCalls | programs/dispatcher/src/routing.rs:165-194 | Calls made without the position's signature never take from its pool or its share account. |
| Replay.EveryStateReplays | programs/kamino-usdc/src/instructions/adapter_withdraw.rs:122-134 | In every state of every run a position's booked shares are the fold of the dispatcher's events and of the adapter's own events, with saturating subtraction for MarginFi and plain subtraction for the others. |
| Replay.StepReplays | programs/marginfi-usdc/src/instructions/adapter_withdraw.rs:77-108 | Every step keeps both logs replaying to the booked shares of every position. |
| Replay.RunReplays | programs/drift-if/src/instructions/adapter_withdraw.rs:76-94 | Both logs keep replaying along runs. |
| ReturnChannel.DepositReturns | programs/kamino-usdc/src/instructions/adapter_deposit.rs:118-135 | The number a deposit returns and both programs log is the measured share change (MarginFi: the principal), and booked shares grow by exactly it. |
| ReturnChannel.WithdrawReturns | programs/kamino-usdc/src/instructions/adapter_withdraw.rs:113-134 | The number a withdrawal returns and both programs log is the pool's measured growth; booked shares drop by the shares, to zero for a MarginFi withdrawal of at least all; the guarded subtraction never fails. |
| ReturnChannel.ValueReturns | programs/dispatcher/src/instructions/current_value.rs:45-65 | A value read returns, logs and re-emits under the dispatcher's id the value computed from the accounts it leaves. |
| ReturnChannel.ForeignReturns | programs/dispatcher/src/routing.rs:125-135 | From any other adapter a number is accepted exactly as that program's own last eight bytes of return data. |
| ReturnChannel.LogGrowth | programs/dispatcher/src/events.rs:3-41 | A successful action appends exactly its own events, dispatcher's and adapter's carrying the same number. |
| ReturnChannel.NotComposable | crates/adapter-interface/src/lib.rs:134-145 | Adapters compare the transaction's top-level program, so no routed instruction, of all four, succeeds on a reference adapter when another program invokes the dispatcher. |
| AdapterInterface.ReturnBytes | crates/adapter-interface/src/lib.rs:115-117 | What a program returns is eight bytes under its own id that hold the value. |
| AdapterInterface.ExecutingInstructionDecides | crates/adapter-interface/src/lib.rs:134-145 | For any instructions before and after, the caller check passes exactly when the executing one is the dispatcher's. |
| Enabled.ExecutingInstructionDecides | crates/adapter-interface/src/lib.rs:131-145 | A routed instruction goes, whatever precedes and follows in the transaction, as if alone in it when the dispatcher's instruction is executing, and fails when any other is. |
| AdapterInterface.ReadBackIff | crates/adapter-interface/src/lib.rs:115-128 | A u64 is read back exactly when the slot holds that program's own eight little-endian bytes of it. |
| Isolation.OthersDoNotMatter | programs/dispatcher/src/instructions/deposit.rs:35-44 | Deleting all other owners' instructions from a run leaves an owner's positions, adapter states, share accounts, pools, wallets and events as they were, if the protocols answer the owner's own calls as before and the same transfers between the owner and others go through; what others do to their own accounts, and whether it still succeeds, does not matter. |
| Isolation.OthersStep | programs/kamino-usdc/src/instructions/adapter_deposit.rs:36-42 | Nothing another owner does through the dispatcher touches an owner's accounts or events. |
| Isolation.UntouchedStep | programs/dispatcher/src/instructions/deposit.rs:40-56 | Steps on markets and on accounts that are not the owner's leave the owner's part alone, successful or not. |
| Isolation.KeptStep | programs/dispatcher/src/instructions/withdraw.rs:34-48 | From accounts that agree on an owner's part, any action but another owner's keeps the agreement, given the same verdict of the protocol on the owner's own call or the same outcome of a transfer to or from others. |
| PauseBracket.RejectedWhilePaused | programs/dispatcher/src/instructions/open_position.rs:22-27 | No routed instruction succeeds for an adapter without an active entry. |
| PauseBracket.Bracket | programs/dispatcher/src/instructions/pause_adapter.rs:29-37 | Pausing, running anything without a switch of the adapter by the admin, and unpausing ends like the run without the bracket and without what was routed to the adapter in between, with only the two notices added to the log; others' attempts to switch it may occur. |
| PauseBracket.StepVariant | programs/dispatcher/src/instructions/pause_adapter.rs:29-37 | Any step not routed to the adapter and not the admin's switch of it commutes with the switch. |
| PauseBracket.PausedRun | programs/dispatcher/src/instructions/withdraw.rs:21-26 | While an adapter is paused a run goes as if nothing had been routed to it. |
| Governance.RunRegistry | programs/dispatcher/src/instructions/whitelist_adapter.rs:40-72 | In every state of every run the count is the number of entries and at most 256, every entry has version 1 and a name of at most 32 bytes, every position has its entry; the admin never changes, the count never drops, nothing recorded is lost. |
| Governance.StepRegistry | programs/dispatcher/src/instructions/whitelist_adapter.rs:40-64 | Every step keeps the registry invariant and only adds. |
| Governance.DeadChecks | programs/dispatcher/src/instructions/whitelist_adapter.rs:60-64 | On reachable states a routed instruction never reports a version mismatch, a fund movement never fails the stored-owner check, and the count's checked addition never fails. |
| Governance.OpensOnce | programs/dispatcher/src/instructions/open_position.rs:32-54 | Once a position is open, opening it again fails in every later state and changes nothing. |
| Enabled.ExitAlwaysOpen | programs/dispatcher/src/instructions/withdraw.rs:64-102 | From every reachable state with an active adapter, withdrawing all booked shares succeeds and leaves none, provided the protocol's calls succeed without taking USDC; for all five adapters. |
| Enabled.WithdrawSucceedsIff | programs/dispatcher/src/instructions/withdraw.rs:64-110 | The exact condition under which a withdrawal succeeds: open position, active adapter, own account, the dispatcher's instruction executing at top level, covered shares (not asked for MarginFi), and the adapter's one or two calls written out, succeeding without taking USDC. |
| Enabled.DepositSucceedsIff | programs/dispatcher/src/instructions/deposit.rs:64-106 | The exact condition under which a deposit succeeds: open position, active adapter, own funded account, top-level dispatcher instruction, calls that succeed without taking shares, and a new total that fits a u64. |
| Enabled.ValueSucceedsIff | programs/dispatcher/src/instructions/current_value.rs:45-65 | The exact condition under which a value read succeeds: open position, active adapter, the dispatcher's instruction executing at top level, Kamino's refresh, and numbers that can be priced, written out per program. |
| Enabled.OpenSucceedsIff | programs/dispatcher/src/instructions/open_position.rs:65-105 | The exact condition under which opening succeeds, among it that nobody has created the position's pool or, for Kamino, Jupiter and Maple, its share token account before. |
| Enabled.AdapterInitializeIff | programs/jupiter-lp/src/instructions/adapter_initialize.rs:25-73 | When an adapter's initialize succeeds: no state and no share account yet, whoever made it, short data, top-level dispatcher instruction, opening calls that succeed. |
| Enabled.ShareAccountBlocksOpen | programs/kamino-usdc/src/instructions/adapter_initialize.rs:51-59 | An open that would succeed fails once somebody else has created the position's associated share account, which anyone can. |
| Enabled.TokensAlwaysFit | programs/kamino-usdc/src/instructions/adapter_deposit.rs:118-127 | With no more booked than held, the booking of a token-based adapter cannot overflow: only taken shares make it fail. |
| Enabled.InitializesOnce | programs/kamino-usdc/src/instructions/adapter_initialize.rs:29-36 | Once a position has been opened the adapter's own initialize for it fails in every later state, for any caller and arguments. |
| Enabled.AdapterValueIff | programs/jupiter-lp/src/instructions/adapter_current_value.rs:42-55 | When an adapter's value read succeeds, for any data and transaction. |
| Enabled.AdapterWithdrawIff | programs/maple-syrup/src/instructions/adapter_withdraw.rs:63-112 | When an adapter's withdrawal succeeds: its guards, its calls and a pool that did not shrink; no checked operation adds a reason to fail. |
| Enabled.AdapterDepositIff | programs/jupiter-lp/src/instructions/adapter_deposit.rs:69-120 | When an adapter's deposit succeeds, in terms of the measured shares. |
| Enabled.ValueIsPrice | programs/maple-syrup/src/instructions/adapter_current_value.rs:45-58 | The number a value read returns is the price of the whole held amount (Kamino: the booked shares) in the market record there or, for Kamino, just refreshed. |
| Pricing.ValueIs | programs/marginfi-usdc/src/instructions/adapter_current_value.rs:51-60 | Per program, when a value is defined and what it is, in numbers: for Kamino, Jupiter and Drift the whole units v with v * supply <= shares * pot < (v + 1) * supply; for Maple and MarginFi the staged products with their two-sided distance from the exact value; nothing for nothing. |
| Pricing.PartIs | programs/kamino-usdc/src/klend_cpi.rs:63-78 | The checked floor share characterised without division, and exactly when it is defined. |
| KlendCpi.WithinOneUnit | programs/kamino-usdc/src/klend_cpi.rs:57-79 | The value is the floor of the exact rational value or one unit below. |
| KlendCpi.IsShareOfLiquidity | programs/kamino-usdc/src/klend_cpi.rs:70-77 | The available-plus-borrowed addition never overflows, so the value is the checked floor share of total liquidity. |
| KlendCpi.EveryHolderPricedIff | programs/kamino-usdc/src/klend_cpi.rs:73-78 | Every holder of up to the whole supply is priced exactly when total liquidity fits a u64. |
| KlendCpi.SplitHolding | programs/kamino-usdc/src/klend_cpi.rs:57-79 | If a whole can be valued so can its parts; splitting never gains and costs at most one unit. |
| KlendCpi.ReserveLayout | programs/kamino-usdc/src/klend_cpi.rs:22-25 | On a reserve's bytes the value is that of the three fields at their offsets; any shorter buffer fails, even for zero shares. |
| JupCpi.EveryHolderPricedIff | programs/jupiter-lp/src/jup_cpi.rs:43-58 | Every LP holder is priced exactly when the pool's assets fit a u64. |
| JupCpi.PoolLayout | programs/jupiter-lp/src/jup_cpi.rs:14-48 | The value from the pool's and mint's bytes; short buffers fail unless the balance is zero. |
| DriftCpi.EveryStakePricedIff | programs/drift-if/src/drift_cpi.rs:42-55 | Every stake is priced exactly when all shares times the vault balance fit a u128. |
| DriftCpi.StakeLayout | programs/drift-if/src/drift_cpi.rs:20-51 | The value from the stake's, spot market's and vault's bytes, with exactly the short buffers that fail. |
| ProRata.ReportsFit | programs/kamino-usdc/src/klend_cpi.rs:70-78 | If the shares read add up to at most the supply read, the floor shares reported for them add up to at most the pot; at zero supply nothing is reported. |
| ProRata.ReportsFitIff | programs/jupiter-lp/src/jup_cpi.rs:44-57 | For u64 shares and supply the reports fit every pot exactly when the shares read add up to at most the supply read, or that is zero. |
| ProRata.ExceedsPotIff | programs/drift-if/src/drift_cpi.rs:43-54 | The exact shares and supply for which one holder can report more than the pot. |
| DriftCpi.StakeExceedsVaultIff | programs/drift-if/src/drift_cpi.rs:43-54 | One stake reports more than some vault holds exactly when its shares exceed the total by enough to show while the checked computation fits; never when they do not exceed it. |
| DriftCpi.TenVaults | programs/drift-if/src/drift_cpi.rs:42-55 | Accounts on which one stake reports ten times the vault. |
| DriftCpi.ExcessCanHide | programs/drift-if/src/drift_cpi.rs:42-55 | Accounts on which shares exceed the total and no vault shows it. |
| JupCpi.EachMintReportsAll | programs/jupiter-lp/src/instructions/adapter_initialize.rs:38-50 | Pool and LP mint are pinned independently, and the whole supply of any mint is worth the whole pool: positions under two mints can each report all of it. |
| JupCpi.ValueLayout | programs/jupiter-lp/src/instructions/adapter_current_value.rs:49-55 | The whole value read from the LP account's, pool's and mint's bytes, with every truncation that fails. |
| OrcaCpi.ValueLayout | programs/maple-syrup/src/instructions/adapter_current_value.rs:45-50 | The whole value read from the syrupUSDC account's and pool's bytes, with every truncation that fails. |
| OrcaCpi.SplitBalance | programs/maple-syrup/src/orca_cpi.rs:35-43 | At any root price, if a whole balance is priced so are its parts, splitting never gains, and it loses at most 1 + ceil(root price / 2^64) units: two up to a root price of 2^64, where every balance is priced. |
| MarginfiCpi.EveryShareValuePricedIff | programs/marginfi-usdc/src/marginfi_cpi.rs:58-69 | A share number is priced at every share value exactly up to 2^17 after the shift, so the product does overflow on valid operands. |
| MarginfiCpi.ProductOverflows | programs/marginfi-usdc/src/marginfi_cpi.rs:58-60 | Operands whose pre-shifted product overflows. |
| ProRata.SplitInTwo | programs/jupiter-lp/src/jup_cpi.rs:52-57 | V(a) + V(b) <= V(a + b) <= V(a) + V(b) + 1 for the floor share. |
| ProRata.SplitAmongMany | programs/drift-if/src/drift_cpi.rs:52-54 | Among n holders the floor shares add up to the whole's, short by at most n - 1. |
| ProRata.CheckedShareIs | programs/jupiter-lp/src/jup_cpi.rs:44-57 | The checked computation gives the floor share exactly when product and quotient fit their widths, and when it fails. |
| ProRata.CheckedSplit | programs/drift-if/src/drift_cpi.rs:42-55 | Splitting a holding never turns a value into a failure and costs at most one unit, for the checked form. |
| OrcaCpi.FailsExactly | programs/maple-syrup/src/orca_cpi.rs:40-42 | Only the second product can decide failure; the final conversion to u64 is never the step that fails. |
| OrcaCpi.EveryBalancePricedIff | programs/maple-syrup/src/orca_cpi.rs:32-43 | Staging the shifts keeps every u64 balance from overflowing exactly up to a root price of 2^64 + 1. |
| OrcaCpi.ProductOverflows | programs/maple-syrup/src/orca_cpi.rs:40-42 | A balance that overflows at the root price just above that range. |
| OrcaCpi.StagedError | programs/maple-syrup/src/orca_cpi.rs:40-41 | The staged value never exceeds the exact floor and falls short by at most 1 + floor(root price / 2^64). |
| OrcaCpi.AtMostFace | programs/maple-syrup/src/orca_cpi.rs:35-43 | At a root price of at most 2^64 every balance is priced, and at most at its face. |
| OrcaCpi.Monotone | programs/maple-syrup/src/orca_cpi.rs:40-42 | Whatever can be priced can be priced at a smaller balance and root price, for no more. |
| OrcaCpi.WhirlpoolLayout | programs/maple-syrup/src/orca_cpi.rs:17-39 | The value from the pool's bytes; a short buffer fails unless the balance is zero. |
| MarginfiCpi.NothingForNothing | programs/marginfi-usdc/src/marginfi_cpi.rs:62-64 | No shares, or a share worth nothing or less, are worth 0 and never an error. |
| MarginfiCpi.FailsExactly | programs/marginfi-usdc/src/marginfi_cpi.rs:65-68 | For positive operands an error is returned exactly when the shifted product needs more than 64 bits, so the truncating cast loses nothing. |
| MarginfiCpi.ValueError | programs/marginfi-usdc/src/marginfi_cpi.rs:61-69 | Every exact value below 2^64 is reported, never too high, and too low by at most 1 + floor((s' + v') / 2^64) for the shifted operands. |
| MarginfiCpi.ExactOrOneLow | programs/marginfi-usdc/src/marginfi_cpi.rs:58-69 | The report is exact or one unit low when the shifted operands sum below 2^64. |
| MarginfiCpi.LossBelowOneUnitIff | programs/marginfi-usdc/src/marginfi_cpi.rs:58-60 | The exact range of kept high parts for which the pre-shift discards less than one base unit whatever the low bits are. |
| MarginfiCpi.LossCanBeLarge | programs/marginfi-usdc/src/marginfi_cpi.rs:58-60 | An input outside that range for which half of the value is not reported. |
| MarginfiScan.AccountAssetShares | programs/marginfi-usdc/src/marginfi_cpi.rs:33-51 | On any cut of an account's bytes the loop returns the shares of the first slot i < 16 with flag byte 72 + 104 i nonzero and key bytes 73 + 104 i to 105 + 104 i the bank's, read at 112 + 104 i, or 0 if none; it fails exactly when the cut comes before 128 + 104 i or, if none, before the last slot's flag or key ends. |
| MarginfiScan.ScanLayout | programs/marginfi-usdc/src/marginfi_cpi.rs:15-19 | The table lookup in plain offsets, and the byte where the answer is decided. |
| MarginfiScan.SlotLayout | programs/marginfi-usdc/src/marginfi_cpi.rs:34-47 | Flag, key and shares of slot i at 72, 73 and 112 plus 104 i. |
| MarginfiScan.ValueFromBytes | programs/marginfi-usdc/src/instructions/adapter_current_value.rs:51-58 | Scan, share value and product composed over the two accounts' bytes, with every truncation that fails. |
| MarginfiScan.FirstIsSum | programs/marginfi-usdc/src/marginfi_cpi.rs:33-51 | With at most one active slot per bank the first match is the sum of all matches. |
| MarginfiScan.OrderIndependent | programs/marginfi-usdc/src/marginfi_cpi.rs:33-51 | With at most one active slot per bank the answer does not depend on slot order. |
| AdapterInterface.EncodeVec | crates/adapter-interface/src/lib.rs:75-81 | The buffer built step by step is the discriminator, the low 32 bits of the length and the data. |
| AdapterInterface.EncodeU64Vec | crates/adapter-interface/src/lib.rs:83-90 | The same with the number's eight bytes before the length. |
| AdapterInterface.Encode | crates/adapter-interface/src/lib.rs:92-107 | The four public encoders. |
| AdapterInterface.DecodeEncoding | crates/adapter-interface/src/lib.rs:75-107 | What the adapter decodes from an encoding and anything behind it, for data of any length. |
| AdapterInterface.RoundTripIff | crates/adapter-interface/src/lib.rs:75-107 | Decoding undoes encoding exactly when the data is shorter than 2^32 bytes. |
| AdapterInterface.EncodingBytes | crates/adapter-interface/src/lib.rs:67-107 | The four encodings byte by byte, discriminators written out. |
| AdapterInterface.OnlyEncodingsDecode | crates/adapter-interface/src/lib.rs:67-107 | Nothing but an encoding, with at most trailing bytes, decodes. |
| AdapterInterface.PrefixFree | crates/adapter-interface/src/lib.rs:67-107 | No encoding is a prefix of another: the four images are disjoint and each encoder is injective. |
| CrossCall.ResolvesIff | programs/kamino-usdc/src/instructions/adapter_deposit.rs:22-42 | The account slots number by number: sysvar 0 and position 1; state 2, or pool 2 and state 3 for fund movements; derived from that position under the called program. |
| CrossCall.WireCarries | programs/dispatcher/src/routing.rs:78-160 | Bytes and account list built by the dispatcher make the adapter work on the same position with the same number. |
| CrossCall.NoConfusion | crates/adapter-interface/src/lib.rs:67-107 | A call on an encoding, with any accounts and trailing bytes, runs that instruction or fails. |
| CrossCall.AcceptsOnly | programs/kamino-usdc/src/instructions/adapter_withdraw.rs:73-87 | Whatever bytes and accounts a reference adapter is handed, success means one of the four instructions for the position in its slots, under a top-level dispatcher instruction, with at most 256 data bytes, a positive number and, MarginFi apart, no more shares than booked. |
| CrossCall.Call | programs/dispatcher/src/routing.rs:102-111 | An invoked adapter decodes its instruction, resolves its slots and runs its handler. |
| Routing.CallBuffers.Forward | programs/dispatcher/src/routing.rs:19-32 | The loop appends every remaining account to both lists in order, flags kept. |
| Routing.InitializeAccounts | programs/dispatcher/src/routing.rs:49-64 | Slots 0-4 are the initialize prefix, slot 5 + k is remaining account k; the infos are the program and the same accounts; the runtime admits the call with the position's signature alone added. |
| Routing.FundMovementAccounts | programs/dispatcher/src/routing.rs:88-101 | The same for deposit and withdraw with the prefix in slots 0-3. |
| Routing.CurrentValueAccounts | programs/dispatcher/src/routing.rs:172-183 | The same for value reads with the prefix in slots 0-2 and no signature added. |
| DispatcherProgram.RouteInitialize | programs/dispatcher/src/routing.rs:39-74 | The routed initialize has the adapter's effect on the position; any adapter failure surfaces as AdapterMismatch. |
| DispatcherProgram.RouteFundMovement | programs/dispatcher/src/routing.rs:78-161 | A routed deposit or withdrawal has the adapter's effect for exactly the given number and returns the u64 that adapter left, or MissingReturnData. |
| DispatcherProgram.RouteCurrentValue | programs/dispatcher/src/routing.rs:165-194 | A routed value read has the adapter's effect and returns the u64 that adapter left. |
| DispatcherProgram.InitializeRegistryHandler | programs/dispatcher/src/instructions/initialize_registry.rs:23-30 | Creates the registry once, with the signer as admin and no entries. |
| DispatcherProgram.WhitelistAdapterHandler | programs/dispatcher/src/instructions/whitelist_adapter.rs:12-72 | Adds one active entry and counts it, or gives the error of the first check that fails. |
| DispatcherProgram.PauseAdapterHandler | programs/dispatcher/src/instructions/pause_adapter.rs:8-37 | The admin switches one entry and nothing else. |
| DispatcherProgram.OpenPositionHandler | programs/dispatcher/src/instructions/open_position.rs:19-105 | Creates position and empty pool, then runs the adapter's initialize on them. |
| DispatcherProgram.CheckFundMovement | programs/dispatcher/src/instructions/deposit.rs:17-62 | The account constraints deposit and withdraw declare. |
| DispatcherProgram.DepositHandler | programs/dispatcher/src/instructions/deposit.rs:64-106 | Funds the pool, routes the amount, logs the returned shares. |
| DispatcherProgram.WithdrawHandler | programs/dispatcher/src/instructions/withdraw.rs:64-110 | Routes the shares, pays the owner the returned amount, logs it. |
| DispatcherProgram.CurrentValueHandler | programs/dispatcher/src/instructions/current_value.rs:15-65 | Reads through the adapter, re-emits and logs the value. |
| KaminoAdapter.Initialize | programs/kamino-usdc/src/instructions/adapter_initialize.rs:65-91 | An empty state keyed by the position. |
| KaminoAdapter.Deposit | programs/kamino-usdc/src/instructions/adapter_deposit.rs:77-138 | Refreshes, enters the reserve, books, returns and logs the measured share change. |
| KaminoAdapter.Withdraw | programs/kamino-usdc/src/instructions/adapter_withdraw.rs:73-137 | Refuses more than is booked, refreshes, redeems, returns the pool's growth and unbooks the shares. |
| KaminoAdapter.CurrentValue | programs/kamino-usdc/src/instructions/adapter_current_value.rs:51-88 | Refreshes, then values the booked shares from the reserve. |
| MarginfiAdapter.Initialize | programs/marginfi-usdc/src/instructions/adapter_initialize.rs:54-91 | Opens the MarginFi account, then an empty state keyed by the position. |
| MarginfiAdapter.Deposit | programs/marginfi-usdc/src/instructions/adapter_deposit.rs:60-100 | Enters the bank and books the principal as shares; returns and logs it. |
| MarginfiAdapter.Withdraw | programs/marginfi-usdc/src/instructions/adapter_withdraw.rs:65-118 | Leaves the bank and returns the pool's growth; at or above the booked principal the booking goes to 0. |
| MarginfiAdapter.CurrentValue | programs/marginfi-usdc/src/instructions/adapter_current_value.rs:41-69 | Values the held shares at the bank's share value. |
| MapleAdapter.Initialize | programs/maple-syrup/src/instructions/adapter_initialize.rs:51-68 | An empty state keyed by the position. |
| MapleAdapter.Deposit | programs/maple-syrup/src/instructions/adapter_deposit.rs:69-118 | Enters the protocol, books, returns and logs the measured share change. |
| MapleAdapter.Withdraw | programs/maple-syrup/src/instructions/adapter_withdraw.rs:63-112 | Refuses more than is booked, leaves the protocol, returns the pool's growth and unbooks the shares. |
| MapleAdapter.CurrentValue | programs/maple-syrup/src/instructions/adapter_current_value.rs:38-61 | Values the held syrupUSDC at the pool's price. |
| JupiterAdapter.Initialize | programs/jupiter-lp/src/instructions/adapter_initialize.rs:54-73 | An empty state keyed by the position. |
| JupiterAdapter.Deposit | programs/jupiter-lp/src/instructions/adapter_deposit.rs:69-120 | Enters the protocol, books, returns and logs the measured share change. |
| JupiterAdapter.Withdraw | programs/jupiter-lp/src/instructions/adapter_withdraw.rs:64-115 | Refuses more than is booked, leaves the protocol, returns the pool's growth and unbooks the shares. |
| JupiterAdapter.CurrentValue | programs/jupiter-lp/src/instructions/adapter_current_value.rs:42-66 | Values the held LP as its share of the pool's assets. |
| DriftAdapter.Initialize | programs/drift-if/src/instructions/adapter_initialize.rs:56-86 | Opens the user stats and the stake, then an empty state keyed by the position. |
| DriftAdapter.Deposit | programs/drift-if/src/instructions/adapter_deposit.rs:63-94 | Stakes, narrows the u128 share change to u64, books, returns and logs it. |
| DriftAdapter.Withdraw | programs/drift-if/src/instructions/adapter_withdraw.rs:69-104 | Refuses more than is booked, requests and removes in one go, returns the pool's growth and unbooks the shares. |
| DriftAdapter.CurrentValue | programs/drift-if/src/instructions/adapter_current_value.rs:41-64 | Values the held stake as its share of the vault. |
| Chain.Ledger.TransferTokens | programs/dispatcher/src/instructions/deposit.rs:71-82 | An SPL transfer moves the exact amount or nothing. |
| Chain.Ledger.SetU64Return | crates/adapter-interface/src/lib.rs:115-117 | The slot holds the calling program's eight little-endian bytes. |
| Machine.LeBytesAt | crates/adapter-interface/src/lib.rs:83-90 | Byte k of an encoded number is its k-th digit to base 256, lowest first. |
| Machine.ReadI128Of | programs/marginfi-usdc/src/marginfi_cpi.rs:23-30 | A signed field reads back as the number whose two's complement it holds. |
| Protocol.TransferSucceedsIff | programs/dispatcher/src/instructions/deposit.rs:71-82 | Exactly when a transfer goes through, and every balance after it. |
| Machine.LeValueOfLeBytes | crates/adapter-interface/src/lib.rs:83-90 | Little-endian decoding undoes encoding up to the dropped high bytes. |
| Machine.LeBytesOfLeValue | crates/adapter-interface/src/lib.rs:121-128 | Little-endian encoding undoes decoding. |

## Left out

- Protocol internals (klend, MarginFi, Jupiter Perps, Orca, Drift): nondeterministic outcomes, as above. Drift's unstaking cooldown is theirs too.
- The account lists, arguments and buffers of the protocol calls themselves, `withdraw_all` among them: long fixed lists, and the protocol's answer is arbitrary anyway.
- Anchor's account deserialization, discriminators of accounts, rent, bump search and address hashing; their failures are one error per missing or existing account.
- The sha256 derivation of the instruction discriminators: four distinct literals.
- Clock, slots, `created_at`, `added_at`, log messages and compute limits: nothing proved rests on them.
- The mint of a position: `open_position` accepts any mint; the model has USDC only.
- Passing an account other than the derived one (`adapter_state`, `position_usdc_pool`, the pinned reserve, bank or pool): the constraint fails and nothing changes. The market is the one recorded when the position was opened.
- The adapters do not compare the pool they are given with the position; the model's adapters refuse another one. The dispatcher always passes the position's own.
- The protocols' accounts inside runs: records of the fields read. The byte readers are modelled separately and tied to the fields by the layout lemmas.
- ReturnChannel.ForeignReturns: an adapter outside this repository is one arbitrary protocol move; what else its code does is unknown.
- Solvency.KaminoSolvent: says nothing of a protocol that burns more than it was asked to, or whose recorded supply falls short of the shares; the hypotheses name where that happens.
- Solvency.DriftSolvent: beyond u64 numbers the exact condition is given for one stake only (`DriftCpi.StakeExceedsVaultIff`), since u128 products can fail before an excess shows.
- Negative share numbers in a MarginFi account, which report 0 like none; two positions that record the same MarginFi or Drift account.
- Enabled.ExitAlwaysOpen: whether the protocol honours the redemption is its own affair and a hypothesis here.
