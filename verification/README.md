# goSplit in Dafny

A verified model of the parts of goSplit that move money and data: the group ledger and its
debt netting, the split engine and the form round trip, and the sealed archive with its
restore. Everything below is proved for all inputs, all runs and all interleavings the model
allows; `dafny verify dfyconfig.toml` checks the whole project.

## The ledger

An expense is a list of signed rows, one per person, that sum to zero. Pair balances are never
stored: the balance view pairs an expense's payer with every other row. `Ledger` defines that
view and proves that the nets seen through it are everyone's plain row sums. `Simplify` is the
greedy settlement, `Rewire` and `RewireLaws` fold the view and compute the shifts that turn the
pairs into the simplified debts. `Writes` gives every store transaction as a function on the
database and the invariant it keeps; the class in `Store` performs those transactions step by
step. `Netting`, `SettleUp`, `Archive`, `Collapsing` and `Stale` prove what netting passes,
settle-ups and history collapses do, `Stale` for one listed, read and committed in different states.
`Effects` says what each write leaves in its row and moves in every balance and net. `Access` holds
who may act, `Edits` what the forms submit, which guards they pass and what they move, and the
class in `Service` is the guarded service on top. `Runs` puts all writes together: any interleaving
in which a write may have been decided from any earlier state and may carry what it read in any
states since.

## The split engine

`Division`, `Shuffle`, `Split` and `Compute` are the engine: truncated division, the seeded
Fisher-Yates order, handing out the leftover, and the zero-sum rows. `Money` is the amount
printer and parser, and `Amounts` what it makes of any text. `Form`, `Prefill`, `Resave`, `Derived`
and `Percent` follow an expense through stored inputs, the edit form and the post that comes back,
and through a recurrence.

## The archive

`Frames`, `Exactness` and `Seal` are the sealed stream: the writer, the reader, and what any
byte stream can be read as under an ideal cipher, one that opens exactly what was sealed under
the key with the nonce at hand. `WireFormat` gives the stream byte by byte. `Parts`, `Restore` and
`Reload` dump tables into bounded parts and read them back through the batcher; `DumpRoundTrip` is
the whole archive, uploads and manifest included, written and restored, and `Acceptance` what is in
any archive that a restore accepts. `Recovery` is the upload swap with a crash at every step. `Locks` is the lease lock under arbitrary interleaving.

`Sums`, `Sorting`, `ByDate`, `Pairs` and `Text` hold shared definitions.

## Where a promise does not hold as stated

- Settle-all leaves every pair of the group at zero, except in a group where nothing is owed but
  pairs are open: with no transfer to record the service returns before the netting pass
  (`internal/service/expense_service.go:243-245`). `SettleUp.SettleAllOutcome` is the exact
  condition, `SettleUp.SettledCycle` such a ledger; the tidy-up does clear it.
- A collapse lists its origins in one query, reads the rows of each in another, and commits in a
  third call (`internal/service/archive_service.go:83-114`). It keeps a net exactly when the origins
  contribute to it at the commit what the rows read give it (`Stale.CollapseKeepsNetIff`, over the
  whole collapse, for each scope, currency and person). An origin deleted in between moves nets
  (`Stale.DeletedOriginReturns`, `Stale.StaleCollapse`), so does the same collapse done twice
  (`Stale.CollapsedTwice`), and comparing the listing with the commit would not tell
  (`Stale.MixedReads`).
- Not every expense lists its payer. If all origins of a batch were archived or otherwise gone when
  their rows were read, the read is empty without an error, and an expense with no row is committed,
  paid by whoever asked for the collapse (`internal/service/archive_service.go:143-158`). Two
  overlapping requests for the same history do it (`Runs.OverlappingCollapses`). A recurrence reads
  its template and the template's rows in two calls (`internal/service/recurrence_service.go:112-122`),
  and an edit in between makes it copy rows without the payer (`Runs.EditedTemplate`).
  `Runs.RunListsIff` is the exact condition; such rows still sum to zero (`Runs.RunValid`), and the
  nets seen through the view are the row sums all the same (`Ledger.ViewNets`).
- A collapse fails when an origin became a recurrence's template after it was listed
  (`Stale.RefusedIff`).
- Amounts come back from their text except the smallest 64-bit number (`Money.RoundTrip`).
- The sealed stream is the only accepted one up to 2^32 frames, the counter being a uint32
  (`Exactness.ExactIff`). Nonces stay unique for one frame more (`Exactness.NoncesUniqueIff`).
- A dump of more than ten thousand parts of a table, or with a row longer than the restoring
  side's line limit, or outside its limits on entries, sizes and bytes in all, cannot be restored
  (`DumpRoundTrip.DumpRestores`, `DumpRoundTrip.LimitsAsk`): the dump does not look at them.
- The container's description lists the manifest as the first entry
  (`internal/backup/container.go:26-31`); the dump writes it last (`DumpRoundTrip.ArchiveLayout`);
  a restore takes it wherever it stands.
- A crash between the commit of a restore and the first rename leaves database and uploads in
  disagreement and recovery silent (`Recovery.AgreementIff`); and a recovery cut off after moving
  the previous tree back keeps its report from the next run (`Recovery.CutOffRecoveries`).
- The lease is exclusive as long as no renewal asks for less time than is left of the lease
  being renewed (`Locks.MutualExclusion`); `Locks.ShorterRenewalRun` is a run in which a shorter
  one breaks it. The program's callers each ask for a fixed time
  (`internal/scheduler/scheduler.go:98`, `:168`, `:192`; `internal/backup/autorestore.go:194`,
  `:213`), so `Locks.FixedTtlExclusive` is what it gets.
- A deleted expense can be edited again exactly when the edit's token is newer than the row its
  guard read (`Runs.EditOnDeletedIff`). With the version its page showed it never is
  (`Runs.NoEditAfterDelete`).
- A restore that starts with a set-aside tree left by an earlier one needs a second recovery to
  clear its staging, and without a live tree recovery takes that old tree for the live one
  (`Recovery.LeftoverRepairs`).
- Re-saving a SHARE expense without recorded inputs uses its shares in minor units as weights; from
  an amount of 3037000501 on, weight times amount can leave 64 bits (`Derived.ShareProductTooLarge`).
- Re-saving a PERCENTAGE expense without recorded inputs goes through whole hundredths of a percent and
  may move rows (`Percent.ThirdsMove`); `Percent.PercentResaveIff` says exactly when it cannot, and
  `Percent.PercentDrift` how far they move.
- An EQUAL expense without recorded inputs whose payer took part with nothing to pay is shown
  without that payer (`Derived.EqualResave`), as every such expense of nothing is
  (`Derived.ZeroAmountHidesPayer`).

## Model

| member | source | states |
|---|---|---|
| `Simplify.SettleNets` | internal/balance/simplify.go:20-63 | walks the net map in any order, sorts both sides largest first and settles with two cursors; the list it returns is the greedy plan of the map's creditors and debtors, the same for every walk |
| `Simplify.SettlesIffZeroSum` | internal/balance/simplify.go:17-63 | every net is settled to zero exactly when the nets sum to zero |
| `Simplify.LeavesUnsettled` | internal/balance/simplify.go:46-62 | for any nets, what stays unsettled adds up to the total of the nets, all of it on one side |
| `Simplify.PlanShape` | internal/balance/simplify.go:1-63 | transfers are positive, run from a debtor to a creditor so that nobody both pays and receives, no (from, to) pair repeats, and there are at most one fewer than there are non-zero nets |
| `Simplify.GreedyTotals` | internal/balance/simplify.go:46-62 | what each debtor pays and each creditor receives never exceeds their amount, and the smaller side is used up, both when they are equal |
| `Simplify.GreedyNoRepeat` | internal/balance/simplify.go:46-62 | no pair of people occurs twice in a plan |
| `Simplify.PlanOrder` | internal/balance/simplify.go:34-43 | in terms of the nets: earlier transfers go to larger creditors and come from larger debtors, of equal ones to and from the smaller id |
| `Simplify.PlanPays` | internal/balance/simplify.go:46-62 | each transfer is for the smaller of what its creditor is still owed and its debtor still owes after the transfers before it |
| `Simplify.FirstTransfer` | internal/balance/simplify.go:34-62 | the first transfer is from the largest debtor to the largest creditor, for the smaller of the two amounts |
| `Rewire.PairsFromRows` | internal/balance/rewire.go:37-62 | one pair per unordered two people and currency with a non-zero first reported balance, sorted by key; the mirror row is dropped |
| `Rewire.FoldUnique` | internal/balance/rewire.go:37-62 | the folded list is determined by the balances alone, whatever the row order |
| `Rewire.NetsOf` | internal/balance/rewire.go:64-79 | the per-currency net map holds everybody's sum over their pairs, and each currency's map sums to zero |
| `Rewire.NeedsTidy` | internal/balance/rewire.go:81-96 | true exactly when there are open pairs although every net is zero |
| `Rewire.Shifts` | internal/balance/rewire.go:98-133 | exactly one positive shift for each pair that is off the simplified debts, sorted by key, and no other |
| `Rewire.PlanByNets` | internal/balance/rewire.go:107-133 | the simplified debts depend on the nets alone, not on the shape of the pairs |
| `RewireLaws.RewireReachesTarget` | internal/balance/rewire.go:98-106 | adding the shifts to the pairs turns every pair balance into the simplified debt of that pair |
| `RewireLaws.RewireKeepsNets` | internal/balance/rewire.go:98-106 | in every currency each person's shifts sum to zero |
| `RewireLaws.RewireIdempotent` | internal/balance/rewire.go:98-106 | pairs that are already the simplified debts of some pairs need no shift |
| `RewireLaws.RewireDeterministic` | internal/balance/rewire.go:98-133 | two shift lists for the same pairs are equal |
| `RewireLaws.NetsSumToZero` | internal/balance/rewire.go:64-79 | the nets of any pairs sum to zero |
| `RewireLaws.PlanKeepsNets` | internal/balance/rewire.go:98-133 | the simplified debts give every person the net the pairs gave them |
| `RewireLaws.ShiftEnds` | internal/balance/rewire.go:107-133 | every shift is positive and between two different people |
| `RewireLaws.PairsInOrder` | internal/balance/rewire.go:37-62 | folded pairs come by currency and then by the two people, none twice |
| `RewireLaws.ShiftsInOrder` | internal/balance/rewire.go:107-150 | and so do the shifts |
| `Pairs.StrLessMeans` | internal/balance/rewire.go:136-150 | of two texts the first differing character decides, and a text comes before what continues it |
| `Ledger.PartsNet` | internal/store/migrations/sqlite/0001_init.sql:175-192 | through the view everyone but the payer gets their own row and the payer what balances the rows |
| `Ledger.PartsOwed` | internal/store/migrations/sqlite/0001_init.sql:175-192 | pair by pair: the payer's pair with each other person holds that person's row, and no two others have a pair |
| `Effects.BalanceMeans` | internal/store/migrations/sqlite/0001_init.sql:175-192 | the balance u sees with v adds up, over the live expenses of scope and currency that one of the two paid, what the other's row owes; v sees the opposite |
| `Ledger.ViewPairs` | internal/store/expenses.go:416-420 | the pairs folded from any listing of the view carry exactly the ledger's pair balances |
| `Ledger.ViewNets` | internal/balance/rewire.go:1-8 | over valid expenses the nets seen through view and folding are everyone's plain row sums |
| `Ledger.ViewOrderIrrelevant` | internal/balance/rewire.go:37-62 | two listings of the same ledger, in any order, fold to the same pairs |
| `Ledger.AllPairsNet` | internal/store/migrations/sqlite/0001_init.sql:175-192 | the pairs of all live expenses of a scope give each person the sum of their rows |
| `Writes.CreateAllKeeps` | internal/store/expenses.go:144-188 | creating expenses with zero-sum rows keeps the ledger invariant and only moves versions forward |
| `Writes.UpdateKeeps` | internal/store/expenses.go:339-389 | a versioned edit of a row that is no conversion leg keeps the invariant: distinct zero-sum rows, paired legs, growing versions, templates in place |
| `Writes.SoftDeleteKeeps` | internal/store/expenses.go:317-337 | a versioned deletion keeps the invariant |
| `Writes.SoftDeleteConversionKeeps` | internal/store/expenses.go:290-315 | deleting a conversion keeps the pairing of legs |
| `Writes.BothLegs` | internal/store/expenses.go:290-315 | deleting either leg deletes exactly that leg and its partner, both alive until then |
| `Writes.ConversionPairKeeps` | internal/store/expenses.go:391-414 | recording a conversion adds one linked pair of live legs and keeps the invariant |
| `Writes.CollapseKeeps` | internal/store/expenses.go:520-566 | a collapse, refused or not, keeps the invariant: archived rows are gone from the live table, no template is, nothing else is |
| `Writes.EvolvesTransitive` | internal/store/expenses.go:339-389 | moving forward composes: versions never shrink, equal versions mean equal rows, deletions and links are final |
| `Effects.CreateMoves` | internal/store/expenses.go:144-188 | a recorded expense is there as submitted, live, in version 1, all else untouched, and adds its own row to each net and its own pair amounts to each balance |
| `Effects.EditMoves` | internal/store/expenses.go:353-389 | after every successful edit the rows, payer, amount, group, currency, method and date read back are the submitted ones, link and deletion mark the old, the version one up; each pair balance and net of each scope and currency moves by the submitted contribution less the stored one, and not at all if the row is deleted |
| `Effects.ConversionMoves` | internal/store/expenses.go:391-414 | a recorded conversion adds both its legs, each in its own currency, and the source leg points at the target |
| `Effects.DeleteMoves` | internal/store/expenses.go:286-337 | a deleted row stays in place, marked and one version up, and its part leaves each balance and net |
| `Effects.CreateAllRows` | internal/store/replan.go:57-66 | many creations leave every old row as it is and add exactly the submitted ones, in order |
| `Netting.EntriesEffect` | internal/service/netting_service.go:47-66 | writing two-row entries never fails, moves each pair of the group by its shift and nothing outside the group |
| `Netting.NettingKeepsNets` | internal/service/netting_service.go:23-33 | a netting pass changes nobody's net in any scope, whatever was committed between its read and its writes |
| `Netting.NettingReachesTarget` | internal/store/replan.go:12-66 | with nothing in between, every pair of the group ends at its simplified debt |
| `Netting.NettingTwice` | internal/service/netting_service.go:32-33 | a pass over its own result plans nothing |
| `SettleUp.SettlementsClearNets` | internal/service/expense_service.go:229-258 | recording one settlement per transfer brings every net of the group to zero |
| `SettleUp.NettingClearsSettled` | internal/service/expense_service.go:246-249 | netting a group in which every net is zero brings every pair to zero |
| `SettleUp.NothingToSettle` | internal/httpapp/handlers_pages.go:332-348 | no transfer is computed exactly when every net is already zero |
| `SettleUp.SettleAllOutcome` | internal/service/expense_service.go:229-258 | afterwards every net is zero, and every pair is zero exactly if the group had something owed or no open pair before |
| `SettleUp.SettleAllTwice` | internal/httpapp/handlers_expenses.go:1132-1135 | a second settle-all computes no transfer |
| `SettleUp.SettledCycle` | internal/service/expense_service.go:243-245 | a ledger in which nothing is owed but pairs are open: whatever settle-all does, from any listing of it, leaves that ledger as it is, the pairs open |
| `SettleUp.NothingOwedNothingDone` | internal/service/expense_service.go:243-245 | with every net zero settle-all changes nothing at all |
| `Archive.BatchValid` | internal/service/archive_service.go:97-184 | whenever the rows of each origin were read, the synthetic expense has distinct rows that sum to zero |
| `Archive.BatchListsPayerIff` | internal/service/archive_service.go:143-158 | its payer has a row exactly when some origin still had rows when they were read; otherwise it has no row at all |
| `Stale.CollapseAllKeepsNets` | internal/service/archive_service.go:40-46 | a whole collapse, all currencies, of rows that are still what was read keeps every net in every scope and currency |
| `Archive.DirectCollapseKeepsPairs` | internal/service/archive_service.go:26-38 | collapsing a batch of two-party expenses, on rows that are what was read, keeps every pair balance too |
| `Stale.CollapseOfUnedited` | internal/store/expenses.go:523-566 | a collapse keeps every net if no origin changed version between the listing and the commit |
| `Stale.RefusedIff` | internal/store/migrations/sqlite/0001_init.sql:130-138 | a collapse is refused, leaving everything as it is, exactly when an origin has become a recurrence's template |
| `Stale.CollapseMovesNet` | internal/service/archive_service.go:83-95 | a collapse of all currencies, listed in one state, the rows of each origin read whenever they were, committed on any later ledger, moves each net of each scope and currency by what the rows read give it minus what the origins contribute now |
| `Stale.CollapseKeepsNetIff` | internal/store/expenses.go:523-566 | so it keeps a net exactly when the origins contribute to it what the rows read for them give it |
| `Stale.DeletedOriginReturns` | internal/service/archive_service.go:83-95 | an origin deleted between the reads and the commit comes back: everyone's net moves by their row of it |
| `Stale.StaleCollapse` | internal/service/archive_service.go:83-95 | a concrete read, deletion and commit after which a net has moved |
| `Stale.MixedReads` | internal/service/archive_service.go:107-114 | a concrete case of reads from two states: two loans that cancel both when listed and at the commit, and yet a net moves |
| `Stale.CollapsedTwice` | internal/service/archive_service.go:83-95 | two requests that list and read the same history and both commit: the second brings everyone's share of it once more |
| `ByDate.SortOrders` | internal/service/archive_service.go:131-133 | the origins of a batch are in date order, oldest first |
| `ByDate.SortStable` | internal/service/archive_service.go:131-133 | origins of one date stay in the order they were listed in |
| `Collapsing.BuildBatches` | internal/service/archive_service.go:97-184 | one batch per currency covering exactly the listed expenses, from the rows read for each: origins in date order, everyone's total as rows, payer the smallest id owed the most or the actor if there is no row, amount what all creditors are owed, date that of the newest origin |
| `Collapsing.PickPayer` | internal/service/archive_service.go:143-155 | the first person owed the most, and the sum of the positive nets |
| `Collapsing.CreditMeans` | internal/service/archive_service.go:143-155 | the amount is the sum of the positive rows, and where the rows sum to zero that of the negative ones too |
| `Collapsing.ListDirectCollapsible` | internal/store/expenses.go:471-498 | selects exactly the live direct expenses of the two people before the cutoff; none is a conversion leg or a template |
| `Collapsing.ListGroupCollapsible` | internal/store/expenses.go:471-510 | selects exactly the group's live expenses before the cutoff; none is a conversion leg or a template |
| `Collapsing.CollapsePreserves` | internal/store/expenses.go:520-566 | every origin of a collapse over several currencies that commits on what it listed ends up in the archive unchanged, its replacement live |
| `Collapsing.CollapseSpares` | internal/store/expenses.go:520-566 | a row that is no origin is untouched by the whole collapse |
| `Collapsing.DirectCollapseAll` | internal/service/archive_service.go:26-38 | collapsing the direct history of two people over all currencies keeps every pair balance |
| `Runs.StepForward` | internal/service/expense_service.go:304-580 | any write whose guards passed in an older state of the run, carrying what it read since, still keeps the invariant when it commits |
| `Runs.RunValid` | internal/store/expenses.go:339-389 | in every state of every interleaved run each expense has distinct rows that sum to zero, versions start at 1 and only grow, conversion legs stay paired, no recurrence lacks its template |
| `Runs.RunListsIff` | internal/service/archive_service.go:107-158 | every payer has a row in every state of a run exactly when no collapse that goes through has a batch whose origins had all lost their rows when they were read, and no repetition copies rows without the payer it had read |
| `Runs.OverlappingCollapses` | internal/service/archive_service.go:83-158 | from every valid state and for every collapse it allows: two overlapping requests after which a live expense has no row and lists no payer |
| `Runs.EditedTemplate` | internal/service/recurrence_service.go:112-158 | from every valid state: a template edited between the two reads makes an occurrence that does not list its payer |
| `Runs.NettingStepKeepsNets` | internal/service/netting_service.go:28-30 | in any run a netting step changes no net, however stale its read |
| `Runs.FoldStepKeepsNets` | internal/service/archive_service.go:83-95 | in any run a collapse step whose origins are unedited from the listing to the commit changes no net, whenever their rows were read |
| `Runs.FoldStepKeepsNetIff` | internal/service/archive_service.go:83-95 | in any run a collapse step that goes through keeps a net exactly when its origins contribute to it at the commit what the rows read for them give it |
| `Runs.TokenSucceedsOnce` | internal/store/expenses.go:339-389 | of two writes of one row with the same token at most one succeeds, and with token 0 none |
| `Runs.NoEditAfterDelete` | internal/service/expense_service.go:304-357 | an edit whose token is no newer than the row its guard saw is rejected, changing nothing, once the row is deleted |
| `Runs.EditOnDeletedIff` | internal/store/expenses.go:353-389 | an edit that passed its guard can land on the row while it is deleted, in some run, exactly when its token is newer than the version the guard saw |
| `Runs.LegsTogether` | internal/store/expenses.go:290-337 | in every state of every run a conversion leg has a partner that is live or deleted as it is |
| `Runs.DeleteTakesOut` | internal/service/expense_service.go:499-502 | a deletion, whatever was written before it, takes exactly that expense's part out of every pair balance and net |
| `Runs.ConversionTakesOut` | internal/store/expenses.go:290-315 | deleting either leg of a conversion, whatever was written before, takes exactly both legs' parts out of every pair balance and net, in both currencies |
| `Runs.DeleteRestores` | internal/service/expense_service.go:499-502 | so deleting what was just recorded restores every pair balance and net |
| `Runs.ConversionRestores` | internal/store/expenses.go:290-315 | and deleting either leg of a conversion just recorded restores every pair balance and net in both currencies |
| `Store.Store.CreateExpense` | internal/store/expenses.go:144-188 | commits the expense as version 1, or nothing when a user has two rows |
| `Store.Store.CreateMany` | internal/store/replan.go:57-65 | all planned expenses in one transaction or none |
| `Store.Store.UpdateExpense` | internal/store/expenses.go:353-389 | rewrites the row and replaces its participants if the token is current, as the transaction whose effect Effects.EditMoves states; otherwise nothing |
| `Store.Store.SoftDeleteExpense` | internal/store/expenses.go:286-337 | marks a live row with the current token deleted and bumps its version; otherwise nothing |
| `Store.Store.SoftDeleteConversionPair` | internal/store/expenses.go:290-315 | the same for a leg and every live leg linked with it |
| `Store.Store.CreateConversionPair` | internal/store/expenses.go:394-414 | both legs, the source linked to the target, or nothing |
| `Store.Store.CollapseToHistorical` | internal/store/expenses.go:520-566 | all batches in one transaction: insert, move to the archive, delete; refused as a whole if an origin is a recurrence's template |
| `Store.Store.GetParticipants` | internal/store/expenses.go:196-212 | the rows of one expense as they are now; none, and no error, if it is gone |
| `Store.Store.CreateRecurrence` | internal/store/migrations/sqlite/0001_init.sql:130-138 | makes an existing expense a template and changes nothing else; refuses a missing one |
| `Store.Store.BalanceView` | internal/store/migrations/sqlite/0001_init.sql:175-192 | lists every non-zero pair balance of the scope, from both sides, summed over the live expenses |
| `Service.LedgerService.GroupTransfers` | internal/httpapp/handlers_pages.go:319-349 | the greedy transfers of the folded view, currency by currency in order |
| `Service.LedgerService.NetGroup` | internal/service/netting_service.go:34-67 | one pass of planned shifts, or nothing for a missing group or, when asked, one with something owed; every row there was stays and only two-row netting entries of the group are added, dated today if no date is given; no net changes, and a settled group ends with every pair zero |
| `Service.LedgerService.RenetIfSimplified` | internal/service/netting_service.go:81-98 | a pass exactly for groups with debt simplification on |
| `Service.LedgerService.TidyGroup` | internal/service/netting_service.go:100-114 | for members only: clears every pair of a group whose nets are all zero and leaves any other group as it is |
| `Service.LedgerService.Settle` | internal/service/expense_service.go:208-227 | outside a group only between people related to the actor: records a positive payment between two people with the given date, every other row staying, and then runs the group's hook; the payer's net goes up and the receiver's down by the amount in that group and currency, and no other net moves; otherwise changes nothing |
| `Service.LedgerService.SettleAll` | internal/service/expense_service.go:229-258 | records the transfers up to the first that is refused; when all were and there was one, rewires the group's pairs |
| `Service.LedgerService.SettleGroup` | internal/httpapp/handlers_expenses.go:1132-1160 | for members of an existing group: adds one positive payment of the given date per transfer and then only netting entries; nets end at zero, every pair does unless there was nothing to settle but open pairs, and with nothing owed nothing is written; anyone else is refused and nothing changes |
| `Service.LedgerService.AddExpense` | internal/service/expense_service.go:95-125 | refuses a group that not all belong to, or people not related to the actor, or a split that cannot be computed; otherwise the new row holds what was submitted, each person's row a fair share of their own line, and moves nets by just that |
| `Service.LedgerService.MoveExpense` | internal/service/expense_service.go:304-368 | the guards in order, each refusal changing nothing; past them, exactly if the token is current, the row holds what was submitted with fair rows, and every net moves by the submitted rows less the stored ones, on a move from one group's into the other's |
| `Service.LedgerService.UpdateSettlement` | internal/service/expense_service.go:381-471 | the guards in order, editor and membership included; past them, exactly if the token is current, the payer still pays the same other person, now the new amount, and through both groups' hooks the payer's net moves by the difference and the other's against it, nobody else's at all, on a move out of one group and into the other |
| `Service.LedgerService.SettlementParties` | internal/service/expense_service.go:473-497 | the payer's counterparty, or nothing unless there are exactly two rows, one of them the payer's |
| `Service.LedgerService.DeleteExpense` | internal/service/expense_service.go:499-547 | refuses netting entries and people who may not edit, deletes conversions as a pair and anything else alone, exactly when live and the token is current, then runs the hook of a settlement's group; every net has lost exactly what was deleted |
| `Service.LedgerService.ArchiveGroup` | internal/service/archive_service.go:40-60 | for members: collapses exactly the selected expenses, whatever others commit before each read and before the transaction; refused exactly if an origin became a template; each net moves by what the rows read give it minus what the origins contribute now, payers stay listed exactly if every batch found a row, and if nobody else wrote all nets are kept, origins are preserved in the archive, everything else is untouched, origins and replacements date from before the cutoff and nothing live of the group from then is left but these, conversion legs and templates |
| `Service.LedgerService.ArchiveDirect` | internal/service/archive_service.go:26-38 | the same for the expenses outside groups with exactly the two people's rows; if nobody else wrote and every payer has a row, every pair balance is kept too |
| `Service.HookedKeeps` | internal/service/netting_service.go:69-98 | a hook moves nobody's net and keeps the invariant |
| `Service.RenettedRows` | internal/service/netting_service.go:34-67 | a netting pass leaves every row as it is and adds only two-row entries of the group and date, each a positive amount from its payer to another person |
| `Service.HookReaches` | internal/service/netting_service.go:81-98 | after the hook every pair of a group that simplifies its debts is at its simplified debt, and in any other case nothing has happened |
| `Service.HistoryCleared` | internal/service/archive_service.go:40-60 | of the time before the cutoff a collapse, nobody else writing, leaves nothing live of its kind besides the replacements, conversion legs and templates, and the replacements date from before the cutoff |
| `Edits.RowsBelong` | internal/service/expense_service.go:581-600 | an expense let into a group has rows of members only, and a member enters it |
| `Edits.AddPassesIff` | internal/service/expense_service.go:97-113 | a new expense is let in exactly if payer, participants and actor are members of its group, or, outside a group, related to the actor |
| `Edits.MovePassesIff` | internal/service/expense_service.go:304-347 | an edit passes exactly if the row is live and no settlement, conversion, archive or netting entry, the actor takes part in it or is an admin, a change of group was acknowledged, and everyone belongs where it goes |
| `Edits.UpdatePassesIff` | internal/service/expense_service.go:381-430 | a settlement edit passes exactly if it is a live two-party settlement the actor takes part in or may administer, the amount is positive and in its currency, a change of group was acknowledged, and both parties are members of the group it goes to |
| `Edits.OtherPartyIff` | internal/service/expense_service.go:473-497 | the other party is o exactly if there are two rows, the payer's and o's |
| `Edits.AddMoves` | internal/service/expense_service.go:95-125 | the new row holds the submitted values and moves each net by its rows, nothing else changing |
| `Edits.MoveMoves` | internal/service/expense_service.go:349-368 | an edited row holds the submitted values and moves each net by the submitted rows less the stored ones |
| `Edits.CorrectionMoves` | internal/service/expense_service.go:431-450 | a corrected settlement from p to o keeps payer, direction and currency: p's row is the new amount and o's its negative; the old amount leaves the old scope and the new one enters the new |
| `Edits.OccurrenceMoves` | internal/service/recurrence_service.go:150-156 | a recurring expense's next occurrence has the template's amount, method, currency, payer and group, the new date and the given rows, and moves nets by just these |
| `Service.AllRecorded` | internal/service/expense_service.go:233-242 | all transfers of a settle-up are recorded, as one creation of the settlements would |
| `Shuffle.OrderIsPermutation` | internal/split/split.go:262-297 | the seeded order gives everyone exactly one place |
| `Shuffle.SeedIgnoresOrder` | internal/split/split.go:235-238 | the seed depends on which base shares there are, not on whose they are |
| `Shuffle.SeededOrder` | internal/split/split.go:270-297 | the in-place Fisher-Yates loop computes that order |
| `Shuffle.DistributeRemainder` | internal/split/split.go:239-260 | hands out the leftover unit by unit along the order, in place, up or down |
| `Shuffle.DistributedUnits` | internal/split/split.go:235-260 | a leftover smaller than the number of shares is handed out whole, at most one unit each, all in one direction |
| `Shuffle.LeftoverFirst` | internal/split/split.go:239-260 | the leftover goes, one unit each, to the first places of the seeded order and to nobody else |
| `Shuffle.AnyOrder` | internal/split/split.go:270-297 | every order can come out of the shuffle, so nobody is ruled out from the first leftover units |
| `Shuffle.OrderDepends` | internal/split/split.go:262-297 | the order may differ with the date and with the base shares |
| `Split.SharesFair` | internal/split/split.go:107-260 | for every method and sign of the total: shares sum to the total, the leftover is smaller than the number of participants, every base share of a non-EXACT split is its exact value cut off toward zero, and nobody gets more than one unit of the leftover, so a share stays within one unit of its exact value |
| `Split.EqualSharesClose` | internal/split/split.go:133-138 | EQUAL shares differ by at most one |
| `Split.ComputeValid` | internal/split/split.go:97-124 | whatever is accepted becomes distinct zero-sum rows naming exactly the payer and the participants, payer first |
| `Split.ComputeFair` | internal/split/split.go:107-233 | over rows and lines: everyone but the payer has the row of their own line, negated within one unit of what that line's input asks for, the typed amount for EXACT; the payer's row is the total less such a share of the payer's own line, or the whole total without one |
| `Split.ComputeAcceptsIff` | internal/split/split.go:97-210 | accepted are exactly the splits among at least one person, nobody twice, whose percentages are not negative and sum to 10000, whose exact amounts sum to the total, whose units are not negative with a positive sum, or that are EQUAL or ADJUSTMENT |
| `Compute.Compute` | internal/split/split.go:107-124 | refuses and computes exactly as specified: no lines, duplicate users, the method's own refusals, else the rows, the payer's first, each person's a fair share of their own line |
| `Compute.ComputeShares` | internal/split/split.go:129-212 | the method's branches, with units divided by their common divisor, give the specified shares |
| `Compute.Finalize` | internal/split/split.go:214-233 | the payer's row first with what they are owed, then everyone else in line order |
| `Compute.GcdDivides` | internal/split/split.go:312-317 | the result divides both arguments and is zero only for two zeros |
| `Compute.NormalizedShare` | internal/split/split.go:180-192 | dividing the units by a common divisor changes no share |
| `Compute.ProductsFit` | internal/split/split.go:153-192 | with amounts below the stated bound the products stay within 64 bits |
| `Money.RoundTrip` | internal/money/money.go:27-115 | what is printed parses back to the same amount exactly when it is not the smallest 64-bit number |
| `Money.ParseExact` | internal/money/money.go:61-115 | accepts exactly well-formed text whose value fits, and returns exactly that value: it neither wraps nor rounds |
| `Money.SmallestRefused` | internal/money/money.go:29-53 | the smallest amount prints as text the parser refuses, in every currency |
| `Money.Format` | internal/money/money.go:29-53 | the printer's text, including the smallest amount's wrapped negation |
| `Money.Parse` | internal/money/money.go:64-115 | the parser's value or error, in the order the fields are checked; the Amounts rows say what it is for any text |
| `Money.Reprint` | internal/money/money.go:27-115 | any accepted text prints back as text for the same amount |
| `Amounts.CommaIgnored` | internal/money/money.go:66-81 | a thousands separator anywhere after the first character and before the last changes nothing |
| `Amounts.SpacesIgnored` | internal/money/money.go:66-67 | nor does white space around the text |
| `Amounts.SignRead` | internal/money/money.go:70-76 | a plus sign changes nothing and a minus sign negates |
| `Amounts.ReadsDecimal` | internal/money/money.go:77-115 | digits, a dot and at most as many decimals as the currency has are read as that many minor units, or refused as too large |
| `Amounts.ReadsWhole` | internal/money/money.go:77-115 | digits alone are whole units |
| `Amounts.TooManyDecimalsRefused` | internal/money/money.go:77-115 | one decimal too many is refused, never rounded |
| `Amounts.OnlyAmounts` | internal/money/money.go:77-115 | nothing but digits, commas and dots is accepted after an optional sign |
| `Amounts.PrintsDecimals` | internal/money/money.go:29-53 | the printed text is a minus sign for negative amounts, the whole units without leading zeros, a dot and exactly the currency's decimals, with that value |
| `Amounts.PrintsWhole` | internal/money/money.go:29-53 | without decimals just the number |
| `Amounts.CurrencyPlaces` | internal/money/money.go:12-27 | the decimals of some currencies, in either case; an unknown one has two |
| `Form.EncodeInputs` | internal/split/inputs.go:69-82 | nothing for system methods or no lines, else one value per user under the decimal id |
| `Form.DecodeInputs` | internal/split/inputs.go:91-111 | nothing unless version and method match, there is a value and every key is a number; else each key's value |
| `Form.EncodeDecode` | internal/split/inputs.go:66-111 | decoding what was encoded gives back each splitter's value and nobody else's |
| `Form.ParseIntRoundTrip` | internal/split/inputs.go:74-107 | a printed 64-bit id parses back |
| `Form.FieldRoundTrip` | internal/httpapp/handlers_expenses.go:313-364 | an untouched field posts the value it was rendered from |
| `Form.FieldMeans` | internal/httpapp/handlers_expenses.go:313-364 | a percentage is a two-decimal number whatever the currency, EXACT and ADJUSTMENT an amount in it, SHARE a whole number, EQUAL nothing; a blank field is zero |
| `Form.WholeNumber` | internal/split/inputs.go:91-111 | digits with an optional sign are read as that number, refused exactly outside 64 bits |
| `Form.ParseLines` | internal/httpapp/handlers_expenses.go:272-308 | reads the included participants in any order and sorts them: the posted splitters' lines by user id, or nothing if a field does not parse or nobody is included |
| `Form.LinesUnique` | internal/httpapp/handlers_expenses.go:297-301 | the same post always gives the same lines |
| `Prefill.RebalanceToTarget` | internal/httpapp/handlers_expenses.go:617-635 | in place, the whole difference goes to the first largest value |
| `Prefill.RebalanceHits` | internal/httpapp/handlers_expenses.go:611-616 | afterwards the values sum to the target and only the largest may have moved |
| `Prefill.PrefillStored` | internal/httpapp/handlers_expenses.go:637-672 | a candidate is included exactly when they have a stored value, shown re-balanced where the method has a fixed sum |
| `Prefill.NothingRebalanced` | internal/httpapp/handlers_expenses.go:642-646 | when every splitter is still a candidate the stored values are shown as they are |
| `Prefill.ResaveLines` | internal/httpapp/handlers_expenses.go:637-672 | rendering the stored values and parsing the post gives back the very lines that were saved |
| `Resave.ResaveMovesNothing` | internal/httpapp/handlers_expenses.go:580-594 | save, open for editing, save unchanged: the same split result on the same date and on any other, when every splitter is still a candidate |
| `Resave.AmountUnchanged` | internal/money/money.go:27-115 | the amount field of an unchanged edit comes back as the same amount |
| `Resave.GenerateRows` | internal/service/recurrence_service.go:111-149 | template and rows being separate reads: re-splits among the people read from usable inputs for the new date, and copies the rows read when there are none or they no longer split; the payer is listed exactly if it re-split or the rows read list them |
| `Resave.OccurrenceLines` | internal/service/recurrence_service.go:130-136 | exactly the people with both a row and a recorded value take part again, by user id, each with that value |
| `Resave.OccurrenceIsResave` | internal/service/recurrence_service.go:97-110 | an occurrence whose template is not edited meanwhile has exactly the rows the template's own inputs give on its date, which are those of an unchanged re-save there |
| `Derived.PrefillDerived` | internal/httpapp/handlers_expenses.go:674-732 | values derived from the stored rows per method: shares, or basis points brought to 100%, a payer with no share left out of EQUAL |
| `Derived.PercentShown` | internal/httpapp/handlers_expenses.go:674-732 | each person's basis points are their share of the amount cut off toward zero; shown values sum to 10000 and all but the first largest are those |
| `Percent.PercentAccepted` | internal/httpapp/handlers_expenses.go:674-732 | re-saving a PERCENTAGE expense from its rows alone is accepted exactly when no percentage shown is negative |
| `Percent.PercentResaveIff` | internal/httpapp/handlers_expenses.go:674-732 | such a re-save is sure to give back the rows, whatever the order of the leftover, exactly when no percentage shown is negative and each, taken of the amount and cut off, is the person's share |
| `Percent.WholeResave` | internal/httpapp/handlers_expenses.go:674-732 | as when every share is a whole number of hundredths of a percent and none is negative |
| `Percent.PercentDrift` | internal/httpapp/handlers_expenses.go:611-635 | in any case the rows of all but one person move by less than a unit and a ten-thousandth of the amount |
| `Percent.ThirdsMove` | internal/httpapp/handlers_expenses.go:674-732 | an expense whose rows do move: a thousand split in three, one debt going down by three cents |
| `Derived.ExactResave` | internal/httpapp/handlers_expenses.go:674-732 | re-saving an EXACT or ADJUSTMENT expense from its rows alone reproduces them on any date |
| `Derived.ShareResave` | internal/httpapp/handlers_expenses.go:674-732 | re-saving a SHARE expense is accepted exactly when its amount is positive and no share negative, and then reproduces the rows |
| `Derived.ShareProductsFit` | internal/split/split.go:161-192 | the weights of such a re-save being minor units, each times the amount fits 64 bits for any amount up to 3037000500 |
| `Derived.ShareProductTooLarge` | internal/split/split.go:161-192 | and for every larger amount there is an expense whose weight times the amount does not |
| `Derived.EqualResave` | internal/httpapp/handlers_expenses.go:706-711 | re-saving an EQUAL expense keeps its participants exactly unless the payer was one of them with nothing to pay |
| `Frames.NonceDistinct` | internal/backup/crypto.go:137-149 | two nonces of one archive are equal only for the same counter value and final flag |
| `WireFormat.WireBytes` | internal/backup/crypto.go:151-231 | byte for byte: frame k stands at k * 1048597, its flag says whether it is the last, its length counts the tag, and it holds the payload's k-th mebibyte sealed under prefix, counter and flag |
| `WireFormat.WireEnds` | internal/backup/crypto.go:202-231 | nothing follows the last frame: the stream's length is the payload's plus 21 bytes a frame |
| `WireFormat.RefusedUnopened` | internal/backup/crypto.go:282-300 | why a frame is refused before it is opened: cut off, a flag beyond 1, a length of zero or beyond a chunk and 4096 bytes |
| `Seal.SealWriter.Write` | internal/backup/crypto.go:183-200 | takes all of its argument however the payload is cut into calls; after Close it refuses |
| `Seal.SealWriter.Close` | internal/backup/crypto.go:202-210 | what reached the underlying writer is the sealed stream of everything written, and a second call changes nothing |
| `Seal.SealWriter.Flush` | internal/backup/crypto.go:212-231 | appends one frame: header, sealed buffer, next counter value |
| `Seal.OpenReader.Next` | internal/backup/crypto.go:282-311 | reads one frame or says why not, leaving what is still to be delivered unchanged |
| `Seal.OpenReader.Read` | internal/backup/crypto.go:257-280 | delivers the next bytes of what the stream holds, or how it ends; an end is final |
| `Seal.SealThenOpen` | internal/backup/crypto.go:151-311 | what a closed writer produced reads back as what was written, and with at most 2^32 frames nothing else reads to a clean end |
| `Exactness.ReadsBack` | internal/backup/crypto.go:202-204 | the written stream reads back as the payload however long it is, empty payload included |
| `Exactness.OnlyTheWritten` | internal/backup/crypto.go:137-140 | with at most 2^32 frames a stream read to a clean end is the written one, and any other delivers a prefix of the payload and then an error |
| `Exactness.ExactIff` | internal/backup/crypto.go:244-311 | the written stream is the only one read to a clean end exactly when it has at most 2^32 frames |
| `Exactness.ShortenedAccepted` | internal/backup/crypto.go:221-229 | beyond that the counter wraps: the stream with 2^32 frames cut out before the last is another one that is accepted |
| `Exactness.DeliversPrefix` | internal/backup/crypto.go:257-280 | whatever a failed reading delivered is a prefix of the payload |
| `Exactness.NoncesUniqueIff` | internal/backup/crypto.go:137-149 | no nonce repeats exactly up to 2^32 + 1 frames |
| `Parts.DumpTable` | internal/backup/dump.go:253-315 | streams the rows into numbered parts: greedily filled, the last always written |
| `Parts.GroupsFlatten` | internal/backup/dump.go:253-256 | every row is in exactly one part, in order |
| `Parts.GroupsBounded` | internal/backup/container.go:53-55 | a part exceeds 8 MiB only if it is a single row, and only an empty table has an empty part |
| `Parts.GroupsFull` | internal/backup/dump.go:283-296 | a part is closed only when its next row would take it past 8 MiB |
| `Parts.PartNameIs` | internal/backup/container.go:245-247 | a part's name is tables/, the table, and its number in four digits |
| `Parts.PartNameRoundTrip` | internal/backup/index.go:412-433 | part names are read back exactly for the first ten thousand parts of a table and refused beyond |
| `Parts.DecodeRows` | internal/backup/index.go:330-364 | line by line: empty lines skipped, lines too long for the scanner's limit and starting buffer, non-rows and rows of the wrong width refused |
| `Parts.DecodesBack` | internal/backup/index.go:330-364 | a part reads back as its rows exactly when every line is within the reader's limit |
| `Parts.DecodesIff` | internal/backup/index.go:330-364 | any text of lines is accepted exactly when each line is empty or a row of the right width within the limit, and gives those rows in order |
| `Parts.StrippedIsBare` | internal/backup/index.go:330-364 | of a line one carriage return at its end is dropped and nothing else |
| `Restore.Batcher.Add` | internal/backup/restore.go:372-391 | hands a row to its table, starting a new INSERT exactly on a change of table or when 1000 rows or 16000 parameters are reached; nothing is lost, repeated or reordered |
| `Restore.Batcher.Flush` | internal/backup/restore.go:393-424 | one INSERT of the buffered rows, within 1000 rows and 16000 parameters unless a single row exceeds them |
| `Restore.ChopFlat` | internal/backup/restore.go:398-416 | bound parameters regroup into the rows they came from |
| `Reload.Scan` | internal/backup/index.go:102-210 | refuses too many entries, duplicate, unexpected or unsafe entry names, an entry or a stream larger than allowed, and an archive without its manifest; else indexes every table part in archive order and the size of every upload |
| `Reload.VerifyComplete` | internal/backup/index.go:212-262 | the manifest's version is known, every registered table is in it and present with its parts contiguous from zero, each once, no other table is in the archive, and the manifest's upload totals are those of the entries |
| `Reload.ForEachRow` | internal/backup/index.go:274-327 | every row of every part goes to the batcher in order; accepted exactly if the stream is within its limit, all parts are known and decode, and the counts match |
| `Reload.RestoreTables` | internal/backup/restore.go:282-358 | accepts exactly restorable archives, manifest and limits included, and then each table holds its rows in archive order, put there by the INSERTs executed, every one within the limits |
| `Acceptance.NothingMissing` | internal/backup/index.go:212-327 | an accepted archive has part 0 of every registered table, with each part every earlier one, and exactly as many rows of the table as the manifest records |
| `Acceptance.UploadsComplete` | internal/backup/index.go:102-262 | its uploads are as many and as large as the manifest records, no two entries share a name, the manifest is there and of this version |
| `Acceptance.EntriesAllowed` | internal/backup/index.go:102-196 | every entry is the manifest, a part of a registered table, or an upload whose path has no backslash or colon and only goes down |
| `Acceptance.DownwardIff` | internal/backup/index.go:444-466 | a path only goes down exactly if none of its segments is empty, . or .. |
| `DumpRoundTrip.Dump` | internal/backup/dump.go:65-165 | the whole archive: every registered table's parts, the uploads, and a manifest with the row counts and upload totals of what was written; it fails exactly if an upload's path could not be restored |
| `DumpRoundTrip.ArchiveLayout` | internal/backup/dump.go:116-147 | the parts of the tables come first, at least one each, then the uploads as they are, and the manifest last |
| `DumpRoundTrip.DumpRestores` | internal/backup/index.go:102-210 | a dumped archive can be restored exactly when every table takes at most 10000 parts, every row's line is within the limit and what was written is within the other limits: entries, size of each entry, bytes in all; then every table comes back row for row in order |
| `DumpRoundTrip.LimitsAsk` | internal/backup/index.go:32-48 | what those limits ask of a dump: parts and uploads to be counted, each upload, the manifest and the whole stream to be small enough; a table part never exceeds a limit of one full part and one longest line |
| `Recovery.Machine.SwapUploads` | internal/backup/restore.go:443-475 | from any staged start, a leftover set-aside tree included, every state a crash can leave is one of the named phases; success leaves the restored tree alone, any failure one of the phases |
| `Recovery.Machine.Apply` | internal/backup/restore.go:229-278 | the same for commit and swap together |
| `Recovery.Machine.Recover` | internal/backup/recovery.go:31-68 | without disk failures exactly the specified repair and report; cut off or failing, one of its own intermediate states |
| `Recovery.RecoveryRepairs` | internal/backup/recovery.go:18-30 | after a crash anywhere recovery leaves only a live tree, wholly the previous or wholly the restored; it reports exactly a crash between the two renames, and running it again changes nothing |
| `Recovery.LeftoverRepairs` | internal/backup/recovery.go:31-68 | with a leftover set-aside tree at the start: while it is there recovery only deletes it if there is a live tree, and takes it for the live tree if there is none; in every other state it repairs as above |
| `Recovery.CutOffRecoveries` | internal/backup/recovery.go:31-68 | recovery may itself be cut off any number of times: the completed run leaves the same disk, and reports the fault exactly if no earlier run had moved the tree back |
| `Recovery.AgreementIff` | internal/backup/recovery.go:20-30 | database and uploads agree after recovery exactly when the crash fell before the commit or after the second rename; between commit and first rename they differ and nothing is reported |
| `Locks.LockTable.AcquireLock` | internal/store/locks.go:10-34 | undisturbed, the lock is won exactly when free, expired or already held, and then carries the new expiry |
| `Locks.StepKeeps` | internal/store/locks.go:14-34 | no statement of any holder breaks the invariant behind exclusion |
| `Locks.MutualExclusion` | internal/store/locks.go:10-34 | in every interleaving two holders never both hold an unexpired lease, as long as no renewal asks for less than is left |
| `Locks.FixedTtlExclusive` | internal/store/locks.go:10-34 | in particular when each holder always asks for the same time to live |
| `Locks.ShorterRenewalBreaks` | internal/store/locks.go:17-22 | and from any state with the invariant, whenever a holder asks for less another may take the lock before that renewal returns |
| `Locks.ShorterRenewalRun` | internal/store/locks.go:17-22 | such a run from the empty lock table, ending with two holders |
| `Derived.ZeroAmountHidesPayer` | internal/httpapp/handlers_expenses.go:706-711 | every EQUAL expense of nothing whose payer took part is such a case: an unchanged edit drops the payer |
| `Derived.ZeroAmountExpense` | internal/httpapp/handlers_expenses.go:706-711 | there is such an expense: two people splitting nothing |

## Left out

- Form.DecodeInputs: when a stored payload spells one id in two ways, states only that the value is one of the two, as the source ranges over a map.
- Collapsing.BuildBatches: does not state the CSV note made from the origins.
- Resave.GenerateRows: the rows of an occurrence only; a run holds the copy of any rows read for any template. Choosing due recurrences and the netting hook after a recurring settlement are not modelled.
- Reload.Scan: the manifest's JSON text is taken as read, its content a parameter, and so is the size of an entry's tar header; directory entries, forbidden entry types, and a file and a directory of one name are not modelled.
- Service.LedgerService.UpdateSettlement: the settlement and its two rows, separate reads in the source, are one state. With the version of a page shown before, an edit between the two reads fails the save; the run theorems do not depend on it, since an edit of a run may carry any rows.
- Locks.MutualExclusion: assumes one clock for all holders, and that no restore empties the lock table between a holder's two statements.
- Integer width: amounts are unbounded integers. The printer, the parser and their guards are modelled at 64 bits; in the engine `BasisPoints*total` and `units*total` are unguarded in the source, and `Compute.ProductsFit` and `Derived.ShareProductsFit` say for which amounts they fit.
- Membership, relation, role and creator lookups are parameters that do not change during a call; how these tables are kept is not modelled.
- Foreign keys: a settlement in a group that does not exist is refused by the database in the source and stored here.
- SQL engines: each store method is one atomic transaction; lock waits and isolation levels appear only as interleavings between transactions.
- Identifiers are drawn from a counter instead of random UUIDs, so that a new id is new.
- The numerics of the seed and the generator: any function of the sorted base shares and the date. Who gets a leftover unit follows that order over the lines; nothing is claimed about how evenly the orders come up.
- Minimality of the simplified debts: the greedy list has at most one transfer fewer than there are non-zero nets, and may not be the shortest.
- JSON text, gzip and tar: text is a string of UTF-8 bytes, one character a byte; row lines, stored inputs and archive entries are taken as lists and maps; a sound row codec is a parameter, and a column value reaches the table as it was read.
- Key derivation, fingerprints and headers; the cipher is ideal, and a failing underlying writer or reader is not modelled.
- Conversion rates: the two legs of a conversion are given, their amounts are not computed.
- The raw (unsimplified) settlement rows of the group page, notifications, receipts, names, notes, categories and history previews.
