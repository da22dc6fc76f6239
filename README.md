# FinDebtSync settlement engine, in Dafny

FinDebtSync is a Django application in which bank customers record debts to
one another and settle them in batches. This project models its settlement
core and proves its properties:

- **`minimize_transactions`** gives every participant an `Organization`. Each
  one's working balance is set to the pending amounts it receives minus the
  pending amounts it sends. A greedy netting loop then runs. Each round it
  takes the first debtor/creditor pair, in index order, that a path search
  can connect through the shared-payment-mode graph. It moves
  `min(|debt|, credit)` from one to the other and records
  `(path, amount, modes)`.
- **`find_path_bfs`** is a breadth-first search over that graph. Two
  participants are joined when their payment-mode sets intersect. The search
  keeps `visited` / `parent` / `mode_used` arrays and a queue, and rebuilds the
  path by following parent links back from the creditor.
- **The bookkeeping of `models.py`:**
  - `Transaction.save` / `update_net_amounts` move a completed transaction's
    amount between the two customers' stored balances.
  - The `BankCustomer` getters filter, sum, count and slice the customer's
    transactions.

Amounts are whole cents (`int`), so the 0.01 minimum on a transaction amount
becomes "at least 1". The database table of transactions is an explicit
sequence `ledger`. A `filter(...).aggregate(Sum)` is the fold `Total`, and a
`filter(...)` is `Select`.

Modules, one file each:

| file | module | what it holds |
|---|---|---|
| `wrappers.dfy` | `Wrappers` | `Option` |
| `models.dfy` | `Models` | `BankCustomer` and `Transaction` as classes, the ledger folds and their lemmas |
| `compat_graph.dfy` | `CompatGraph` | the shared-mode graph: walks, reachability, shortest simple routes |
| `organizations.dfy` | `Organizations` | the `Organization` class, the `TransactionPath` record, the views `Modes` / `Balances` of a list of organizations |
| `path_finder.dfy` | `PathFinder` | `find_path_bfs` on arrays, with its search invariant and step lemmas; `get_common_payment_mode` |
| `netting_spec.dfy` | `NettingSpec` | one netting round and a run of rounds, stated over balance sequences, and what they preserve |
| `settlement.dfy` | `Settlement` | the balance aggregation, the netting loop and `minimize_transactions`, proved against `NettingSpec` |

The model follows the code on these points:
- There is no clearing-party or bank-intermediary fallback when no path
  exists. The loop just stops.
- A customer's payment modes are all its compatibilities. There is no
  filter on `is_active`.
- The mode recorded for a hop is *some* shared mode (`next(iter(...))` of a
  set), not a deterministic choice.
- The starting balances need not add up to zero. Pending transactions with
  non-participants count too.

## Model

| member | source | states |
|---|---|---|
| `Organizations.Organization.constructor` | findebt_app/core/utils.py:6-13 | a new organization starts at balance 0 and carries its customer's payment-mode names |
| `Organizations.Modes` | findebt_app/core/utils.py:10-13 | the search graph: node `i` carries the payment modes of organization `i` |
| `Organizations.Balances` | findebt_app/core/utils.py:9 | balance `i` is the `net_amount` of organization `i` |
| `PathFinder.CommonPaymentMode` | findebt_app/core/utils.py:66-68 | returns a mode both organizations support, and `None` exactly when their mode sets are disjoint |
| `PathFinder.FindPathBfs` | findebt_app/core/utils.py:21-64 | returns `None` exactly when the creditor is unreachable from the debtor. Otherwise the path starts at the debtor and ends at the creditor, each hop's mode lies in both ends' mode sets, no node repeats, no walk is shorter, and the amount is `min(abs(debtor balance), creditor balance)`. It has no `modifies` clause, so the organizations are never changed |
| `PathFinder.RebuildPath` | findebt_app/core/utils.py:32-41 | following parent links back from the creditor yields a shortest simple route from debtor to creditor, with exactly one recorded mode per hop |
| `PathFinder.ExpandNode` | findebt_app/core/utils.py:50-62 | scanning one dequeued node `u` changes exactly its unvisited neighbours `v`. Afterwards `v` is visited, `parent[v] == u`, and `mode_used[v]` is a mode both share. Nodes visited before keep their parent and mode. The queue keeps its old contents as a prefix, followed by exactly the newly visited nodes in increasing index order. The breadth-first invariant is kept: parent tree, exact levels, queue ordered by level with no node queued twice, processed nodes closed |
| `PathFinder.ScanCandidate` | findebt_app/core/utils.py:51-62 | one candidate of the scan: it is visited, parented and queued exactly when it is unvisited, is not the dequeued node and shares a mode with it. Otherwise nothing changes |
| `PathFinder.ScanEffectVisit` | findebt_app/core/utils.py:58-62 | visiting a new neighbour extends the record of the scan's effect by that one node, appended at the end of the queue |
| `PathFinder.ScanEffectSkip` | findebt_app/core/utils.py:51-52 | a skipped candidate leaves the record of the scan's effect as it was |
| `PathFinder.MarkVisited` | findebt_app/core/utils.py:59-62 | the three array writes for a newly reached node, and no others |
| `PathFinder.SearchStart` | findebt_app/core/utils.py:22-27 | the initial arrays and queue satisfy the search invariant |
| `PathFinder.SearchPop` | findebt_app/core/utils.py:29-30 | taking the head off the queue keeps the invariant and moves the level being expanded up by at most one |
| `PathFinder.SearchVisit` | findebt_app/core/utils.py:58-62 | visiting a new neighbour keeps the invariant, with the neighbour one level deeper |
| `PathFinder.SearchSkip` | findebt_app/core/utils.py:51-52 | skipping a visited node, the node itself or a node with no shared mode keeps the invariant |
| `PathFinder.SearchDone` | findebt_app/core/utils.py:50-62 | after the scan the expanded node has all its neighbours visited |
| `PathFinder.BumpLevel` | findebt_app/core/utils.py:29-30 | once only deeper nodes remain queued, every node one hop further out is visited |
| `PathFinder.NewLevelSound` | findebt_app/core/utils.py:58-61 | a node first reached while expanding level `d` is no closer than `d + 1` hops |
| `PathFinder.ExhaustedSearch` | findebt_app/core/utils.py:29-64 | when the queue runs empty, an unvisited creditor is unreachable |
| `PathFinder.ChainBack` | findebt_app/core/utils.py:37-40 | one step back along a parent link extends the route by one hop with the recorded mode |
| `PathFinder.ChainComplete` | findebt_app/core/utils.py:41 | a parent chain that reaches the debtor is a shortest simple route |
| `CompatGraph.ShortestWalkIsSimple` | findebt_app/core/utils.py:32-41 | a shortest walk never repeats a node, so the rebuilt path is simple |
| `CompatGraph.ClosedKeepsWalks` | findebt_app/core/utils.py:50-64 | a walk that starts in a set closed under edges stays in it |
| `CompatGraph.RoutePrepend` | findebt_app/core/utils.py:38-39 | putting a hop with a shared mode in front of a route gives a route |
| `NettingSpec.Debtors` | findebt_app/core/utils.py:95 | exactly the indices with a negative balance, in increasing order |
| `NettingSpec.Creditors` | findebt_app/core/utils.py:96 | exactly the indices with a positive balance, in increasing order |
| `NettingSpec.Apply` | findebt_app/core/utils.py:112-113 | one round on the balances: the path's first node (the debtor) goes up by the amount, its last node (the creditor) goes down by it, and nothing else changes. An empty path, or one whose ends lie outside the balances, changes nothing |
| `NettingSpec.Replay` | findebt_app/core/utils.py:94-120 | the balances after applying a sequence of rounds in order, starting from the given ones |
| `NettingSpec.ApplyConserves` | findebt_app/core/utils.py:112-113 | a transfer leaves the sum of all balances unchanged |
| `NettingSpec.ReplayConserves` | findebt_app/core/utils.py:94-120 | any sequence of transfers leaves the sum of all balances unchanged |
| `NettingSpec.StepShrinksSupport` | findebt_app/core/utils.py:111-113 | a round moves a positive amount no larger than either side's balance. The debtor ends at or below 0 and the creditor at or above 0, and at least one of them ends at exactly 0. Every other balance, intermediate nodes included, is unchanged, so fewer balances are non-zero |
| `NettingSpec.RunPreservesSigns` | findebt_app/core/utils.py:94-120 | over a whole run no balance changes sign or grows in size, and settled participants stay settled |
| `NettingSpec.RunLength` | findebt_app/core/utils.py:94-120 | a run has at most as many rounds as there were non-zero starting balances |
| `NettingSpec.RunExtend` | findebt_app/core/utils.py:115 | appending a valid round to a run gives a run whose balances are the new round applied |
| `NettingSpec.NoConnectionAtStart` | findebt_app/core/utils.py:103 | no debtor-creditor pair comes before the first debtor in scan order |
| `NettingSpec.NoConnectionFirstCreditor` | findebt_app/core/utils.py:107 | no pair of the current debtor comes before its first creditor |
| `NettingSpec.NoConnectionNextCreditor` | findebt_app/core/utils.py:107-110 | a creditor the search cannot reach extends the cleared part of the scan to the next creditor |
| `NettingSpec.NoConnectionNextDebtor` | findebt_app/core/utils.py:103-107 | a debtor that reaches no creditor extends the cleared part of the scan to the next debtor |
| `NettingSpec.OneSideEmptyTerminal` | findebt_app/core/utils.py:98-99 | with no debtors or no creditors, no pair is connectable |
| `NettingSpec.TerminalWhenCompatible` | findebt_app/core/utils.py:119-120 | when every two participants share a mode, the loop can only stop with no debtors or no creditors left |
| `NettingSpec.CompatibleRunSettlesAll` | findebt_app/core/utils.py:94-120 | for fully compatible participants whose balances add up to 0, a finished run leaves every balance at 0 |
| `Settlement.NetPending` | findebt_app/core/utils.py:76-90 | a customer's starting balance: the PENDING amounts it receives minus the PENDING amounts it sends |
| `Settlement.StartingBalances` | findebt_app/core/utils.py:75-90 | one starting balance per organization, in order, each computed from that organization's customer |
| `Settlement.NetPendingAppend` | findebt_app/core/utils.py:79-90 | the starting balance is additive over the ledger |
| `Settlement.NetPendingSingle` | findebt_app/core/utils.py:79-90 | one pending transaction adds its amount to its receiver and takes it from its sender. Any other transaction, or status, contributes 0 |
| `Settlement.NetPendingNone` | findebt_app/core/utils.py:76-90 | a customer with no pending transactions starts at 0 |
| `Settlement.ComputeNetAmounts` | findebt_app/core/utils.py:75-90 | every organization's balance becomes its customer's pending received total minus its pending sent total |
| `Settlement.AddToNetAmount` | findebt_app/core/utils.py:112-113 | `net_amount += delta` on one organization changes only that balance |
| `Settlement.ApplyTransfer` | findebt_app/core/utils.py:111-113 | the loop's two balance updates are exactly `Apply`: debtor up, creditor down, the rest unchanged |
| `Settlement.ScanCreditors` | findebt_app/core/utils.py:107-117 | trying one debtor's creditors in order either makes the round for the first connected pair and records it, or proves the debtor reaches no creditor and changes nothing |
| `Settlement.NettingLoop` | findebt_app/core/utils.py:92-122 | every recorded round is the first connected pair in index order, with a shortest route and amount `min(-debt, credit)`. The final balances are the rounds replayed on the initial ones, and when the loop stops no debtor can reach any creditor |
| `Settlement.MinimizeTransactions` | findebt_app/core/utils.py:70-122 | one fresh organization per participant, in order, with the participant's modes. The starting balances come from the pending ledger, followed by the netting loop's guarantees |
| `Models.BankCustomer.NetPosition` | findebt_app/core/models.py:73-77 | returns the stored balance as it is |
| `Models.BankCustomer.TotalDebtOwed` | findebt_app/core/models.py:79-86 | the sum of the customer's sent COMPLETED transactions. It is never negative, and it is 0 exactly when there are none |
| `Models.BankCustomer.TotalCreditReceived` | findebt_app/core/models.py:90-97 | the same for received COMPLETED transactions |
| `Models.BankCustomer.PendingSettlementsCount` | findebt_app/core/models.py:100-107 | counts PENDING transactions involving the customer. The count is at most the ledger size, and 0 exactly when there are none |
| `Models.PendingCountInclusionExclusion` | findebt_app/core/models.py:104-107 | a transaction the customer both sends and receives is counted once: sent + received − both |
| `Models.BankCustomer.RecentTransactions` | findebt_app/core/models.py:110-116 | `limit` defaults to 5. Returns `min(limit, n)` of the customer's `n` transactions, newest first, each at most as often as in the ledger. No transaction left out is newer than one returned |
| `Models.SortNewestFirst` | findebt_app/core/models.py:116 | `order_by('-created_at')`: newest first, a permutation of the input |
| `Models.InsertNewestSorted` | findebt_app/core/models.py:116 | inserting into a newest-first list keeps it newest-first |
| `Models.InsertNewestCount` | findebt_app/core/models.py:116 | inserting adds exactly the one transaction |
| `Models.TakeNewest` | findebt_app/core/models.py:116 | `[:limit]` of the sorted list: its length, its order, and no newer transaction left out |
| `Models.Select` | findebt_app/core/models.py:104-116 | a filter keeps exactly the matching rows: each matching row as often as in the ledger, every other row never |
| `Models.Total` | findebt_app/core/models.py:83-86 | `filter(...).aggregate(Sum('amount')) or 0`: the sum of the amounts of the rows `keep` selects, 0 when none match |
| `Models.TotalNone` | findebt_app/core/utils.py:79-88 | an aggregate that matches no row is 0 (the `or Decimal('0')` case) |
| `Models.TotalSign` | findebt_app/core/models.py:83-97 | an aggregate `Sum(...) or 0` over amounts of at least 0.01 is never negative, and is 0 exactly when nothing matches |
| `Models.TotalAppend` | findebt_app/core/models.py:83-86 | an aggregate over two batches is the sum of the two aggregates |
| `Models.TotalPermutation` | findebt_app/core/models.py:83-86 | an aggregate does not depend on row order |
| `Models.TotalRemove` | findebt_app/core/models.py:83-86 | taking one row out of an aggregate takes out exactly its contribution |
| `Models.Transaction.UpdateNetAmounts` | findebt_app/core/models.py:200-207 | the sender's balance goes down by the amount and the receiver's up by it, so their sum is unchanged. Only those two customers may change |
| `Models.Transaction.Save` | findebt_app/core/models.py:193-197 | only a COMPLETED transaction moves balances, and the move each party sees is what the completed-transaction getters attribute to it |
| `Models.LedgerShiftSingle` | findebt_app/core/models.py:196-207 | the balance shift one saved transaction gives a customer |
| `Models.LedgerShiftAppend` | findebt_app/core/models.py:193-207 | saving two batches shifts a balance by the sum of the two shifts |
| `Models.SaveTwiceShiftsTwice` | findebt_app/core/models.py:193-197 | saving a COMPLETED transaction twice moves its amount twice, so `save` is not idempotent |

## Left out

- Persistence: `super().save()` and the customers' own `save()` calls write to the database. The model keeps only the in-memory balance updates.
- The ORM: queries are folds over an explicit `ledger` sequence. Database ordering of equal `created_at` values is unspecified; `SortNewestFirst` keeps ledger order for ties.
- `get_recent_transactions` with a negative `limit`: Django rejects negative slices, so `limit` is a `nat`.
- `Models.Transaction.UpdateNetAmounts`: when sender and receiver are the same customer, the model has one object whose balance ends unchanged. With the ORM they are two separately loaded instances, and the second `save()` wins. The model does not capture that lost update.
- The `num_orgs` parameter of `find_path_bfs`: its only caller passes `len(organizations)`, so the model uses `|organizations|`.
- `PathFinder.CommonPaymentMode`: written as a method because the mode it picks is an arbitrary element of a set. Nothing in the core calls it; `find_path_bfs` makes the same choice inline.
- The `deque` is a sequence. `popleft` is `queue[1..]` and `append` is `queue + [x]`.
- Nothing is proved about the starting balances adding up to zero, because pending transactions with non-participants count too. `NettingSpec.CompatibleRunSettlesAll` takes that as a hypothesis.
- Views, forms, admin, URLs and migrations. That includes `initiate_settlement`, which marks pending transactions SETTLED regardless of the computed paths.
- Timestamps other than `created_at`, credit ratings and the floating-point `compatibility_score`.
