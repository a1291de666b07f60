# A Dafny model of the raydium-amm program

This project models the constant-product pool of the raydium-amm program (with its Token-2022 hook
whitelist) and proves what its arithmetic, its instruction handlers and its byte layouts keep.
`dafny verify dfyconfig.toml` checks all of it.

## What is modelled

| file | content |
|---|---|
| `Machine.dfy`, `Arith.dfy`, `Bytes.dfy` | machine integers, failures, the adjoint laws of floor and ceiling, little-endian numbers |
| `CeilDiv.dfy` | `checked_ceil_div`, as the loop-free imperative code it is, against its specification |
| `Quotes.dfy`, `Splitting.dfy` | the two swap prices with their fees: what they mean, how they relate, what splitting does |
| `InitialLp.dfy` | the Newton square root that sets the first LP amount |
| `PoolState.dfy`, `Steps.dfy` | the stored records and the instructions as functions from state to state or failure |
| `Acceptance.dfy` | when each instruction is accepted, why it is refused, and the exact state it leaves, of any pool |
| `Growth.dfy`, `Runs.dfy`, `Accounting.dfy`, `Pnl.dfy` | what one instruction does, safety over arbitrary runs, conservation, pnl |
| `Pool.dfy` | the handlers as methods that update the pool object, and the runtime that undoes a failed one |
| `Whitelist.dfy`, `WhitelistAccount.dfy` | the hook whitelist as a set, as bytes, as an object with an array, and its account |
| `Instruction.dfy`, `Layout.dfy` | `AmmInstruction::pack` and `unpack`, and their bytes by tag and offset |
| `Orders.dfy`, `EventQueue.dfy`, `Decimals.dfy` | order collection and cancel batches, the event-queue correction, the decimal scales |

The pool is specified by the functions of `Steps.dfy`. The class in `Pool.dfy` does the same work step
by step on its fields, in the handler's order of checks and writes, and each method's contract equates
its outcome, error code included, with the specification; `ProcessAll` extends this to whole runs. The
results about reserves are lemmas about the specification. A failed check, an unwrap of nothing, a
cast out of range, an arithmetic overflow (`raydium-amm/Cargo.toml:6`) or a refused token transfer makes
an instruction fail, and a failed instruction leaves the pool as it was.

A reserve is the vault balance plus the part on the order book; settling moves the second into the
first. Balances of the caller's accounts, the LP mint's supply, the clock and the state of the order
book are parameters of the steps.

## Where code, comments and intent differ

- `swap.rs:412` pays the OUTPUT amount of an exact-in swap from pc to coin into the pc vault, while the
  mirrored branch (`swap.rs:312`), the exact-out branch (`swap.rs:840`) and the counter (`swap.rs:433`)
  use the input amount. Every step and run takes a `Build`: `AsWritten` follows line 412, `Intended`
  pays the input amount. For `AsWritten` the project gives a run from Initialize2 that loses the
  pool's backing (`AsWrittenLosesBacking`) and the exact condition under which a swap and a run keep it
  (`AsWrittenKeepsProductIff`, `RunGrowsIff`), and under which it collects what the counter records
  (`AsWrittenPaysInFullIff`, `ReservesAccountedFor`); for `Intended` both hold on every run.
- `initialize.rs:122` and `initialize.rs:196` borrow one account mutably twice. The model takes the
  final write of the handler; the borrow check at run time is not modelled.
- The comment on `checked_ceil_div` says that it fails below the divisor. The code rounds half up
  there (`math.rs:631-640`), and the model follows the code. The consequence is visible to users: an
  input whose fee is below one half is charged nothing (`Dust`).
- The comment at `state.rs:1023` gives the whitelist account 2084 bytes for 64 slots; the constants give
  32 slots and 1060 bytes.
- `process_set_params` validates neither fees nor status, and `process_initialize2` leaves every decimal
  and scale field zero. The model assumes neither; that all scales stay zero is proved.

## Model

| member | source | states |
|---|---|---|
| `CeilDiv.CheckedCeilDiv` | raydium-amm/program/src/math.rs:594-656 | the reassigning code returns nothing on a zero divisor or overflow, half-up below the divisor, and otherwise the mathematical ceiling with the least matching divisor |
| `CeilDiv.CeilDivAbove` | raydium-amm/program/src/math.rs:625-656 | from the divisor upwards the quotient is the true ceiling, the second result the least divisor whose multiple covers the dividend, at most the divisor, and dividing by it again gives the same pair |
| `CeilDiv.CeilDivBelow` | raydium-amm/program/src/math.rs:626-640 | below the divisor the quotient is the rounding half up, and a ceiling if and only if the dividend is zero or twice it reaches the divisor |
| `Quotes.AmountOutIsLargest` | raydium-amm/program/src/math.rs:374-410 | the exact-in price is the largest output that does not lower the product of the reserves |
| `Quotes.AmountInIsLeast` | raydium-amm/program/src/math.rs:412-454 | a nonzero exact-out price is the least input that does not lower the product of the reserves |
| `Quotes.AcceptedBaseOutIsCeiling` | raydium-amm/program/src/process/swap.rs:630-672 | the charge of every accepted exact-out swap is made of two true ceilings, because zero results are refused |
| `Quotes.SwapFeeDefined` | raydium-amm/program/src/process/swap.rs:214-220 | with a proper fee fraction every input has a fee that does not exceed it: zero for dust, the true ceiling otherwise |
| `Quotes.BaseInPricedIff` | raydium-amm/program/src/process/swap.rs:214-227 | which exact inputs have a price: those whose rounded fee exists and does not exceed them, into a pool that is not left empty |
| `Quotes.QuotesPanic` | raydium-amm/program/src/process/swap.rs:214-227 | every swap without a price panics |
| `Quotes.BaseInReaches` | raydium-amm/program/src/process/swap.rs:214-227 | an exact input buys what an accepted exact-out swap asks for if and only if it reaches the exact-out charge, or, if it is dust, the charge before the fee |
| `Quotes.BaseOutThenBaseIn` | raydium-amm/program/src/process/swap.rs:630-650 | the exact-out charge fed into exact-in buys at least the output asked for |
| `Quotes.BaseOutIsLeastIff` | raydium-amm/program/src/process/swap.rs:638-650 | the exact-out charge is the least exact input for that output if and only if the charge before the fee is not dust |
| `Quotes.BaseOutNotLeastExample` | raydium-amm/program/src/state.rs:518-520 | with the initial fees, exact-out charges 101 for an output that an exact input of 100 buys |
| `Quotes.FeesAgreeIff` | raydium-amm/program/src/process/swap.rs:651-653 | exact-out and exact-in charge the same fee on the same gross input if and only if that input is not dust |
| `Quotes.FeesDifferExample` | raydium-amm/program/src/process/swap.rs:651-653 | at 25/10000 a gross input of 101 is charged 1 by exact-out and nothing by exact-in |
| `Splitting.SplittingNeverPays` | raydium-amm/program/src/math.rs:374-410 | for any list of inputs after fee, traded in order with reserves updated, the total output is at most that of one trade of their sum |
| `Splitting.SplittingNeverPaysIff` | raydium-amm/program/src/process/swap.rs:214-227 | with fees taken from every piece, splitting a list gains at no reserves if and only if the fees of the pieces cover the fee of their sum, for amounts with `4 * pieces * sum * (fees + 1)` below the largest u64 |
| `Splitting.CoveredSplittingNeverPays` | raydium-amm/program/src/process/swap.rs:214-227 | where the fees of the pieces cover the fee of their sum, splitting gains nothing at any size, any reserves and under any fee numbers |
| `Splitting.LargeSplittingNeverPays` | raydium-amm/program/src/process/swap.rs:214-227 | a size bound is needed: two pieces that nearly fill u64, whose fees do not cover, gain at no reserves |
| `Splitting.SplittingSwapsNeverPays` | raydium-amm/program/src/process/swap.rs:214-227 | splitting gains nothing, at any size and any reserves, for every list without dust |
| `Splitting.SplittingDustPays` | raydium-amm/program/src/process/swap.rs:214-219 | two dust pieces that together buy more than one swap of their sum |
| `Splitting.SplittingExactOutNeverPays` | raydium-amm/program/src/process/swap.rs:630-672 | the charges of any list of accepted exact-out swaps, traded in order with reserves updated, are together at least the charge of their summed output, which is priced too: under any fee and with no exception for dust |
| `InitialLp.InitialLpAmount` | raydium-amm/program/src/process/initialize.rs:159-173 | for all u64 amounts the Newton loop ends, stays in u128, and yields exactly the floor of the square root, which fits u64 |
| `Pool.Pool.Initialize2` | raydium-amm/program/src/process/initialize.rs:79-235 | writes the initial records, the LP amount and the vaults as specified, or fails |
| `Pool.Pool.Deposit` | raydium-amm/program/src/process/deposit.rs:56-366 | the handler, check by check, ends in the specified state or with the specified error |
| `Pool.Pool.Withdraw` | raydium-amm/program/src/process/withdraw.rs:105-414 | the handler, comparing with the vault balances it read before settling, ends in the specified state or with the specified error |
| `Pool.Pool.SwapBaseIn` | raydium-amm/program/src/process/swap.rs:118-451 | the handler, for either reading of line 412 and through its status transitions, ends in the specified state or with the specified error |
| `Pool.Pool.SwapBaseOut` | raydium-amm/program/src/process/swap.rs:546-879 | the handler, with its settling, transfers, counters and status transitions, ends in the specified state or with the specified error |
| `Pool.Pool.MonitorStep` | raydium-amm/program/src/process/monitor.rs:88-149 | takes the recorded pnl, writes the target totals and settles the book if there are orders, as specified, or fails on an uninitialized pool or bad totals |
| `Pool.Pool.WithdrawPnl` | raydium-amm/program/src/process/withdraw_pnl.rs:77-130 | pays both owed totals out of the vaults and zeroes them, or fails without owed pnl or with too little in a vault |
| `Pool.Pool.SetParams` | raydium-amm/program/src/process/set_params.rs:43-129 | assigns exactly the field its parameter names, unvalidated, and fails on an uninitialized pool or an unknown parameter |
| `Pool.Pool.ProcessAll` | raydium-amm/program/src/lib.rs:24-96 | a list of instructions processed on the pool object, each with all of its writes or none, is the run of the specification |
| `Acceptance.TotalsAre` | raydium-amm/program/src/math.rs:294-335 | the totals that are priced: the vaults, with the book in statuses 1 and 5 only, less what is set aside for pnl, and the error when they overflow or fall short |
| `Acceptance.DepositIs` | raydium-amm/program/src/process/deposit.rs:56-366 | of any pool: a deposit is accepted exactly when a table of conditions on its inputs names no error, refused with the error it names, and leaves exactly the state described, pnl records included |
| `Acceptance.WithdrawIs` | raydium-amm/program/src/process/withdraw.rs:105-414 | of any pool: a withdrawal is accepted exactly when a table of conditions on its inputs names no error (more LP than the caller holds is InsufficientFunds), refused with the error it names, and pays the floor shares of the totals, from the settled vaults, with the pnl records that follow |
| `Acceptance.SwapBaseInIs` | raydium-amm/program/src/process/swap.rs:118-451 | of any pool, for either reading of line 412: an exact-in swap is accepted exactly when a table of conditions names no error, refused with the error it names, and leaves exactly the balances, book, counters and status described |
| `Acceptance.SwapBaseOutIs` | raydium-amm/program/src/process/swap.rs:546-879 | of any pool: an exact-out swap is accepted exactly when a table of conditions names no error, refused with the error it names, and leaves exactly the balances, book, counters and status described |
| `Acceptance.SwapBaseInTiming` | raydium-amm/program/src/process/swap.rs:118-137 | an exact-in swap in status 7 before the open time, in status 5 before the switch time, or in another closed status is refused; an accepted one turns status 7 into 6, 5 into 1, and keeps 1 and 6; once open its outcome is that of the opened pool at any time |
| `Acceptance.SwapBaseOutTiming` | raydium-amm/program/src/process/swap.rs:546-565 | an exact-out swap in status 7 before the open time, in status 5 before the switch time, or in another closed status is refused; an accepted one turns status 7 into 6, 5 into 1, and keeps 1 and 6; once open its outcome is that of the opened pool at any time |
| `Acceptance.NoSwapBeforeOpening` | raydium-amm/program/src/process/swap.rs:128-137 | at every moment of every run an accepted swap finds status 1, 5, 6 or 7, and in status 7 does not precede the open time, in status 5 not the switch time |
| `Acceptance.WaitingPoolStaysShut` | raydium-amm/program/src/process/swap.rs:128-137 | a waiting pool whose parameters nobody sets has traded nothing after any run whose swaps all precede its open time |
| `Acceptance.MonitorStepIs` | raydium-amm/program/src/process/monitor.rs:88-149 | of any pool: the targets become the totals after pnl, what is owed grows by the recorded pnl, the book settles if there are orders, and each error |
| `Acceptance.WithdrawPnlIs` | raydium-amm/program/src/process/withdraw_pnl.rs:77-130 | of any pool: what a payout pays, zeroes and keeps, and each error |
| `Acceptance.SetParamsIs` | raydium-amm/program/src/process/set_params.rs:43-129 | for each of the 18 parameters, which field takes which value; the others and absent values write nothing |
| `Acceptance.InitializedPoolIs` | raydium-amm/program/src/process/initialize.rs:79-235 | the LP amount of a new pool is the floor of the square root of the product paid in; its fees, status, open time, vaults and records are the listed numbers |
| `Acceptance.InitializeAcceptedIff` | raydium-amm/program/src/process/initialize.rs:79-235 | Initialize2 is accepted if and only if the payer holds both amounts and neither the vaults nor the LP supply overflow |
| `Growth.DepositPaysShare` | raydium-amm/program/src/process/deposit.rs:172-310 | an accepted deposit takes the given amount and the true ceiling of its counterpart, mints the largest share the base side pays for, and the other side covers that share too |
| `Growth.DepositKeepsShares` | raydium-amm/program/src/process/deposit.rs:193-343 | an accepted deposit of either base side lowers neither reserve per LP unit |
| `Growth.WithdrawKeepsShares` | raydium-amm/program/src/process/withdraw.rs:310-384 | an accepted withdrawal lowers neither reserve per LP unit |
| `Growth.DepositThenWithdraw` | raydium-amm/program/src/math.rs:465-569 | depositing and at once withdrawing the minted LP returns at most what was put in, of both tokens |
| `Growth.SwapBaseInEffect` | raydium-amm/program/src/process/swap.rs:245-447 | an accepted exact-in swap prices the whole reserves, respects the minimum, and moves reserves and counters by exactly its gross input, output and fee |
| `Growth.SwapBaseOutEffect` | raydium-amm/program/src/process/swap.rs:674-875 | an accepted exact-out swap prices the whole reserves, charges at most the maximum, and moves reserves and counters by exactly its charge, output and fee |
| `Growth.SwapBaseInKeepsProduct` | raydium-amm/program/src/process/swap.rs:214-250 | under any fee numbers an accepted exact-in swap whose gross input reaches the vault keeps the product |
| `Growth.SwapBaseOutKeepsProduct` | raydium-amm/program/src/process/swap.rs:630-672 | under any fee numbers an accepted exact-out swap keeps the product |
| `Growth.AsWrittenKeepsProductIff` | raydium-amm/program/src/process/swap.rs:405-415 | line 412 as written keeps the product if and only if the input left after its fee satisfies `(pc + net) * (pc - 1) < pc * coin`, which a caller can check before the swap |
| `Growth.AsWrittenPaysInFullIff` | raydium-amm/program/src/process/swap.rs:405-434 | line 412 as written puts into the vault what the pc counter records if and only if `amountIn * (pc + net) <= coin * net < (amountIn + 1) * (pc + net)`, which a caller can check before the swap |
| `Runs.StepGrowsIff` | raydium-amm/program/src/process/swap.rs:405-428 | every instruction, accepted or not, keeps the product per squared LP unit from falling, except line 412 as written, which does so exactly when guarded |
| `Runs.RunGrows` | raydium-amm/program/src/process/withdraw.rs:168-384 | every run that prices the whole reserves, with or without funds on the book, and meets the condition of `AsWrittenKeepsProductIff` keeps the product per squared LP unit from falling from start to end |
| `Runs.ReachableStatesAreBacked` | raydium-amm/program/src/process/initialize.rs:158-195 | on every run from Initialize2, under any fees and statuses: the squared LP amount is at most the product of the reserves, the product per squared LP unit has not fallen between any two moments, all scales and pnl are zero, and WithdrawPnl never pays |
| `Runs.GuardedStatesAreBacked` | raydium-amm/program/src/process/swap.rs:405-415 | on every run from Initialize2, in either reading of line 412, that meets the condition of `AsWrittenKeepsProductIff` at each exact-in swap from pc to coin: backing, growth between any two moments, and no pnl |
| `Runs.RunGrowsIff` | raydium-amm/program/src/process/swap.rs:412 | a run grows at every step, and between any two moments, if and only if each exact-in swap from pc to coin under line 412 as written meets the condition of `AsWrittenKeepsProductIff` |
| `Runs.NoGuardedRunProfits` | raydium-amm/program/src/process/swap.rs:405-428 | in either reading of line 412, on a run that meets the condition of `AsWrittenKeepsProductIff`, empty reserves included: if the LP amount does not end below its start, the product has not fallen, and no reserve ends at or below its start without the other at or above its own |
| `Runs.NoRunProfits` | raydium-amm/program/src/process/swap.rs:245-447 | with the intended line 412, on every run whose LP amount does not end below its start, the product has not fallen, and no reserve ends at or below its start without the other at or above its own |
| `Runs.StepKeepsClean` | raydium-amm/program/src/process/helpers.rs:127-166 | no instruction of a clean pool, priced in full or not, records, takes or owes pnl or sets a scale, and none puts funds on an empty book |
| `Accounting.RunBalanced` | raydium-amm/program/src/process/swap.rs:306-344 | over any run of any pool each reserve moved by deposits less withdrawals plus the swap-in less the swap-out counter, less pnl paid and what line 412 did not collect; the LP by mints less burns |
| `Accounting.CollectsIff` | raydium-amm/program/src/process/swap.rs:405-434 | on any run of a clean pool priced in full, no recorded pc input is uncollected at any moment if and only if each exact-in swap from pc to coin under line 412 as written meets the condition of `AsWrittenPaysInFullIff` |
| `Accounting.ReservesAccountedFor` | raydium-amm/program/src/process/swap.rs:734-873 | from Initialize2 the counters account at every moment of any run for the coin reserve in both readings of line 412, and for the pc reserve if and only if each exact-in swap from pc to coin meets the condition of `AsWrittenPaysInFullIff` |
| `Accounting.RunKeepsFeesCovered` | raydium-amm/program/src/process/swap.rs:340-346 | over any run of any pool the fees recorded for a token, once within the inputs recorded for it, never exceed them |
| `Accounting.AsWrittenLosesBacking` | raydium-amm/program/src/process/swap.rs:406-415 | a run from Initialize2 on which line 412 as written drops the product below the squared LP amount |
| `Accounting.LiquidityAcceptedExample` | raydium-amm/program/src/process/deposit.rs:172-310 | a deposit into a fresh pool and the withdrawal of what it minted that are both accepted |
| `Pnl.MonitorAccumulates` | raydium-amm/program/src/process/monitor.rs:100-123 | in a pool with recorded pnl, n monitor steps, with or without orders on the book, add it n times to what is owed, truncated and capped, never reset it, and move no reserve |
| `Pnl.MonitorThenWithdrawPnl` | raydium-amm/program/src/process/withdraw_pnl.rs:77-127 | a payout after n monitor steps, with or without orders on the book, pays the owed totals plus n times the record, in full or not at all, out of the vaults and what settling added to them |
| `Pnl.WithdrawPnlPaysOnce` | raydium-amm/program/src/process/withdraw_pnl.rs:77-127 | an accepted payout pays exactly what is owed, zeroes it, and cannot be repeated |
| `Whitelist.UpdateIsSetUpdate` | raydium-amm/program/src/state.rs:1047-1091 | adding succeeds exactly for an absent hook with room, removing exactly for a present one; the update changes the membership of that hook only and keeps the active prefix duplicate-free and the rest default |
| `Whitelist.RemovedShape` | raydium-amm/program/src/state.rs:1066-1091 | removal takes one occurrence out and keeps the order of the rest |
| `Whitelist.RemoveUndoesAdd` | raydium-amm/program/src/state.rs:1047-1091 | removing what was just added restores the exact array |
| `Whitelist.UnpackPacked` | raydium-amm/program/src/state.rs:1121-1167 | packing and unpacking returns the whitelist if it has a non-default authority, and the uninitialized error otherwise |
| `Whitelist.PackedLayout` | raydium-amm/program/src/state.rs:1130-1142 | 1060 bytes: the authority first, the count at 32 with its low byte first, slot i at 36 + 32 i |
| `Whitelist.UnpackedIs` | raydium-amm/program/src/state.rs:1144-1166 | which byte strings are a whitelist, which one, and the error of the others |
| `Whitelist.RunIsSet` | raydium-amm/program/src/process/whitelist.rs:116-142 | after any run of whitelist instructions through the stored bytes, a hook is reported if and only if the last successful update naming it was Add, and queries are refused only for a default authority |
| `Whitelist.RunIsSetRun` | raydium-amm/program/src/process/whitelist.rs:42-220 | after any run over the stored bytes every instruction succeeds or fails, error for error, as on a set of at most 32 hooks with one owner, and a query answers with membership |
| `Whitelist.OnlyAuthorityWrites` | raydium-amm/program/src/process/whitelist.rs:116-125 | a successful update or handover is signed with the key in the first 32 bytes, any other signer gets InvalidAccountOwner and changes nothing; an update keeps those bytes, a handover replaces them and nothing else |
| `Whitelist.OnlyHolderChanges` | raydium-amm/program/src/process/whitelist.rs:169-193 | at every moment of every run only the signer named by Initialize or by the last handover its predecessor signed can change anything |
| `WhitelistAccount.HookWhitelist.AddHook` | raydium-amm/program/src/state.rs:1047-1063 | the in-place update of the array is the specified one, or the specified error leaves it unchanged |
| `WhitelistAccount.HookWhitelist.RemoveHook` | raydium-amm/program/src/state.rs:1066-1091 | the search and the shifting loop perform the specified removal in place |
| `WhitelistAccount.HookWhitelist.ContainsHook` | raydium-amm/program/src/state.rs:1094-1101 | the scan finds a hook exactly if it is active |
| `WhitelistAccount.HookWhitelist.PackIntoSlice` | raydium-amm/program/src/state.rs:1130-1142 | the slot-by-slot writes produce exactly the specified bytes |
| `WhitelistAccount.Unpack` | raydium-amm/program/src/state.rs:1144-1166 | the slot-by-slot reads rebuild the specified whitelist or fail as specified |
| `WhitelistAccount.Account.UpdateHookWhitelist` | raydium-amm/program/src/process/whitelist.rs:110-144 | load, check, change and store perform exactly one step on the stored bytes |
| `WhitelistAccount.Account.UpdateWhitelistAuthority` | raydium-amm/program/src/process/whitelist.rs:169-193 | load, check, hand over the authority and store perform exactly one step on the stored bytes |
| `WhitelistAccount.Account.InitializeHookWhitelist` | raydium-amm/program/src/process/whitelist.rs:42-84 | creating the account stores the packed empty whitelist, or fails if it exists |
| `WhitelistAccount.Account.QueryHook` | raydium-amm/program/src/process/whitelist.rs:209-220 | answers the query over the stored bytes |
| `Instruction.UnpackPackIff` | raydium-amm/program/src/instruction.rs:431-1096 | whatever packs, with any bytes behind it, unpacks to itself if and only if it is canonical and no short Deposit followed by 8 or short Withdraw followed by 16 bytes |
| `Instruction.PackInjective` | raydium-amm/program/src/instruction.rs:839-1096 | no two canonical instructions share their bytes |
| `Layout.FieldsLayout` | raydium-amm/program/src/instruction.rs:431-780 | for each tag as a byte whose fields stand one after the other, what unpack reads at which offset |
| `Layout.ShortFieldsRefused` | raydium-amm/program/src/instruction.rs:782-824 | bytes too short for those tags, or for Deposit and Withdraw, are refused with an error |
| `Layout.MinimaLayout` | raydium-amm/program/src/instruction.rs:463-494 | the long and the short forms of Deposit and Withdraw by offset |
| `Layout.SetParamsLayout` | raydium-amm/program/src/instruction.rs:496-561 | which of the four options SetParams reads from offset 2, selected by its second byte |
| `Layout.OptionsLayout` | raydium-amm/program/src/instruction.rs:587-653 | SimulateInfo and UpdateConfigAccount by their second byte |
| `Layout.MintLayout` | raydium-amm/program/src/instruction.rs:654-712 | the keys and texts of CreateToken2022Mint by offset, zeros meaning none |
| `Layout.ShortMintRefused` | raydium-amm/program/src/instruction.rs:654-712 | without its fixed fields it panics, without all of its texts it is refused |
| `Layout.WhitelistLayout` | raydium-amm/program/src/instruction.rs:713-757 | UpdateHookWhitelist by offset, and the empty list of tag 18 |
| `Layout.PacksIff` | raydium-amm/program/src/instruction.rs:839-1096 | which instructions pack, those that carry what their option byte calls for, and the error of the others |
| `Layout.PackLength` | raydium-amm/program/src/instruction.rs:839-1096 | how many bytes each instruction packs to |
| `Bytes.LastByteWeighs` | raydium-amm/program/src/instruction.rs:782-824 | the byte at position k of a number weighs 256 to the k |
| `Orders.GetAmmOrders` | raydium-amm/program/src/process/helpers.rs:80-116 | returns each leaf once for every occupied slot of its side that leads to it in the matching book and nothing else, bids by falling and asks by rising price |
| `Orders.SortIsStable` | raydium-amm/program/src/process/helpers.rs:113-114 | the sort orders by price, keeps every leaf, and keeps the order of equal prices |
| `Orders.StableSortIsUnique` | raydium-amm/program/src/process/helpers.rs:113-114 | any two stable sorts by price return the same list |
| `Orders.BatchOneSide` | raydium-amm/program/src/process/swap.rs:254-269 | the single-side loop fills its arrays of eight with exactly the specified batches |
| `Orders.BatchInterleaved` | raydium-amm/program/src/process/helpers.rs:277-298 | the interleaving loop never writes past its array and yields exactly the batches of the interleaved list |
| `Orders.BatchesAreTheList` | raydium-amm/program/src/process/admin.rs:82-97 | there are ceil(n/8) batches of eight; flattened they are the list followed by the zeros of the last batch |
| `Orders.BatchesSendEachOnce` | raydium-amm/program/src/process/admin.rs:99-112 | every id is sent exactly as often as it occurs, up to padding zeros |
| `Orders.InterleavedLength` | raydium-amm/program/src/process/withdraw.rs:206-223 | the interleaving keeps every id of both sides |
| `Orders.InterleavedAt` | raydium-amm/program/src/process/helpers.rs:281-290 | which id stands at which place of the interleaving: bids at even and asks at odd places while both last, then the rest of the longer side |
| `Orders.OneSideCancelsOpenOrders` | raydium-amm/program/src/process/swap.rs:254-269 | the flattened single-side batches send each client id once for every occupied slot of that side whose order has it, and zeros only as padding |
| `Orders.BothSidesCancelOpenOrders` | raydium-amm/program/src/process/helpers.rs:265-298 | the flattened interleaved batches send each client id once for every occupied slot of either side whose order has it, and zeros only as padding |
| `EventQueue.CalcExactVaultInSerum` | raydium-amm/program/src/math.rs:244-292 | the loop over the event queue computes the specified totals or stops at the first underflow or overflow |
| `EventQueue.OneEvent` | raydium-amm/program/src/math.rs:258-287 | an own maker bid pays pc and receives coin, an own maker ask the reverse, each failing exactly on under- or overflow; any other event changes nothing |
| `EventQueue.ExactVaultIff` | raydium-amm/program/src/math.rs:257-289 | it succeeds if and only if no prefix leaves the range of u64, and then returns the opening pc plus what own maker asks received less what own maker bids paid, and the mirror for coin |
| `EventQueue.OnlyOwnMakerFillsCount` | raydium-amm/program/src/math.rs:258-287 | dropping all other events changes nothing, not even failure |
| `EventQueue.ExactVaultComposes` | raydium-amm/program/src/math.rs:257-291 | working through a concatenated queue is working through its parts |
| `Decimals.NormalizeIs` | raydium-amm/program/src/math.rs:112-122 | normalizing is the scaled amount rounded down, or a panic where the power of ten overflows |
| `Decimals.RestoreIs` | raydium-amm/program/src/math.rs:102-110 | restoring is the quotient by the scale rounded down, or a panic |
| `Decimals.ConvertInVolIs` | raydium-amm/program/src/math.rs:207-223 | the volume in through lots, rounded down, or a panic |
| `Decimals.ConvertVolOutIs` | raydium-amm/program/src/math.rs:225-242 | the volume out through lots, rounded down, or a panic |
| `Decimals.RestoreNormalizeIff` | raydium-amm/program/src/math.rs:102-122 | restoring a normalized amount returns v or v - 1, and v if and only if the scaled amount is whole |
| `Decimals.RestoreNormalizeExact` | raydium-amm/program/src/math.rs:102-122 | nothing is lost on whole units or on a scale that is a multiple of the native one |
| `Decimals.ConvertVolOutIn` | raydium-amm/program/src/math.rs:207-242 | with a positive lot size, whenever the conversion in does not fail, converting a volume in and out again returns v or v - 1, and v if and only if the scaled volume is whole |
| `Decimals.ChooseScale` | raydium-amm/program/src/state.rs:773-807 | the chosen scale is the finer token scale or the lot ratio, at least as fine as both token scales, or fails in exactly the listed cases |

## Left out

- Cross-program invocations, account loading, program-derived addresses, owner and signer checks, mint and market key checks, rent and logging: library code or key comparisons; transfers appear as balance updates that may be refused.
- Order-book program: cancelling and settling appear as moving the book part into the vaults; fills during a run are not steps, and the account arguments of the settle call (`swap.rs:820` passes the asks account where `swap.rs:393` passes the coin vault) are not modelled.
- Initialize2 over a pool that already exists is not a step of the runs; `initialize.rs` itself does not check for it.
- AmmInfo fields that no modelled handler reads or writes (nonce, lot sizes, reset flag, keys, client order id, recent epoch, padding).
- The order-book tree: a finite map from order key to leaf.
- Hook execution and Token-2022 plumbing (`invokers.rs`, `token2022.rs`).
- Tag 18 with a nonempty list: its record layout belongs to another crate; the empty list is in the round trip.
- Text decoding: `String::from_utf8_lossy` is a parameter with the two properties in `IsDecoder`; texts are their UTF-8 bytes.
- `AmmInfo::initialize` beyond its choice of `sys_decimal_value`: no modelled handler calls it.
- `get_whitelisted_hooks`, `simulate.rs`, `migrate.rs`, `config.rs`, `withdraw_srm.rs`, the CLI and `market_utils.rs`: reads, placeholders, key checks and plain transfers.
- `fibonacci`, `calc_x_power`, `normalize_decimal`, lot and price helpers: unused by the handlers or instances of the conversions proved here.
