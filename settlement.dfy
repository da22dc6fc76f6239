/**
 * `minimize_transactions`: one `Organization` per participant, each one's
 * working balance set from the pending transactions of the ledger, then the
 * greedy netting loop, which keeps settling the first debtor-creditor pair a
 * path search can connect until none is left.
 */
module Settlement {
  import opened Models
  import opened CompatGraph
  import opened Organizations
  import opened PathFinder
  import opened NettingSpec

  /** Pending amounts `c` receives minus pending amounts it sends, each 0 when there are none. */
  function NetPending(ledger: seq<Transaction>, c: BankCustomer): int {
    Total(ledger, (t: Transaction) => t.receiver == c && t.status == Pending)
      - Total(ledger, (t: Transaction) => t.sender == c && t.status == Pending)
  }

  /** The starting balance adds up over the rows of the ledger, one transaction at a time. */
  lemma NetPendingAppend(a: seq<Transaction>, b: seq<Transaction>, c: BankCustomer)
    ensures NetPending(a + b, c) == NetPending(a, c) + NetPending(b, c)
  {
    TotalAppend(a, b, (t: Transaction) => t.receiver == c && t.status == Pending);
    TotalAppend(a, b, (t: Transaction) => t.sender == c && t.status == Pending);
  }

  /**
   * A single pending transaction raises its receiver's starting balance and
   * lowers its sender's by its amount; it leaves everybody else, and any
   * transaction in another state leaves everybody, at 0.
   */
  lemma NetPendingSingle(t: Transaction, c: BankCustomer)
    ensures NetPending([t], c) ==
      if t.status != Pending then 0
      else (if t.receiver == c then t.amount else 0) - (if t.sender == c then t.amount else 0)
  {
    TotalSingle(t, (t': Transaction) => t'.receiver == c && t'.status == Pending);
    TotalSingle(t, (t': Transaction) => t'.sender == c && t'.status == Pending);
  }

  /** A customer with no pending transactions starts at 0. */
  lemma NetPendingNone(ledger: seq<Transaction>, c: BankCustomer)
    requires forall t :: t in ledger && Involves(t, c) ==> t.status != Pending
    ensures NetPending(ledger, c) == 0
  {
    TotalNone(ledger, (t: Transaction) => t.receiver == c && t.status == Pending);
    TotalNone(ledger, (t: Transaction) => t.sender == c && t.status == Pending);
  }

  /** The starting balances: every organization's computed from its customer's pending transactions. */
  function StartingBalances(orgs: seq<Organization>, ledger: seq<Transaction>): (b: seq<int>)
    ensures |b| == |orgs|
  {
    seq(|orgs|, i requires 0 <= i < |orgs| => NetPending(ledger, orgs[i].bankCustomer))
  }

  /** Sets every organization's working balance from the pending part of the ledger. */
  method ComputeNetAmounts(organizations: seq<Organization>, ledger: seq<Transaction>)
    modifies organizations
    ensures Balances(organizations) == StartingBalances(organizations, ledger)
  {
    for i := 0 to |organizations|
      invariant forall k :: 0 <= k < i ==>
        organizations[k].netAmount == NetPending(ledger, organizations[k].bankCustomer)
    {
      var org := organizations[i];
      var incoming := Total(ledger, (t: Transaction) => t.receiver == org.bankCustomer && t.status == Pending);
      var outgoing := Total(ledger, (t: Transaction) => t.sender == org.bankCustomer && t.status == Pending);
      org.netAmount := incoming - outgoing;
    }
  }

  /** `organizations[k].net_amount += delta`: one balance moves, the others stay. */
  method AddToNetAmount(organizations: seq<Organization>, k: nat, delta: int)
    requires Distinct(organizations) && k < |organizations|
    modifies organizations[k]
    ensures Balances(organizations) == old(Balances(organizations))[k := old(organizations[k].netAmount) + delta]
  {
    organizations[k].netAmount := organizations[k].netAmount + delta;
  }

  /** Moves a transfer's amount onto its debtor's balance and off its creditor's, in that order. */
  method ApplyTransfer(organizations: seq<Organization>, t: TransactionPath)
    requires Distinct(organizations)
    requires t.path != [] && Debtor(t) < |organizations| && Creditor(t) < |organizations|
    modifies organizations
    ensures Balances(organizations) == Apply(old(Balances(organizations)), t)
  {
    var debtor, creditor := t.path[0], t.path[|t.path| - 1];
    AddToNetAmount(organizations, debtor, t.amount);
    AddToNetAmount(organizations, creditor, -t.amount);
  }

  /**
   * The inner scan of one round: tries the creditors in index order against
   * one debtor, and settles the first one a path search connects.  Either
   * that pair is the first connected one overall, or the debtor reaches no
   * creditor at all and nothing changed.
   */
  method ScanCreditors(organizations: seq<Organization>, debtor: nat, creditors: seq<nat>,
                       allTransactions: seq<TransactionPath>, ghost g: Graph, ghost b: seq<int>)
    returns (pathFound: bool, step: TransactionPath, allTransactions': seq<TransactionPath>)
    requires Distinct(organizations) && g == Modes(organizations)
    requires b == Balances(organizations) && creditors == Creditors(b)
    requires debtor < |b| && b[debtor] < 0 && NoConnectionBefore(g, b, debtor, 0)
    modifies organizations
    ensures pathFound ==> StepOk(g, b, step) && Balances(organizations) == Apply(b, step)
    ensures !pathFound ==> Balances(organizations) == b && NoConnectionBefore(g, b, debtor, |b|)
    ensures allTransactions' == if pathFound then allTransactions + [step] else allTransactions
  {
    pathFound, step, allTransactions' := false, TransactionPath([], 0, []), allTransactions;
    NoConnectionFirstCreditor(g, b, debtor);
    var j := 0;
    while j < |creditors|
      invariant j <= |creditors|
      invariant Balances(organizations) == b
      invariant NoConnectionBefore(g, b, debtor, EntryOr(creditors, j, |b|))
    {
      var creditor := creditors[j];
      assert creditor in creditors;
      var path := FindPathBfs(debtor, creditor, organizations);
      if path.Some? {
        var amount := path.value.amount;
        step := TransactionPath(path.value.path, amount, path.value.paymentModes);
        ApplyTransfer(organizations, step);
        allTransactions' := allTransactions' + [step];
        pathFound := true;
        return;
      }
      NoConnectionNextCreditor(g, b, debtor, j);
      j := j + 1;
    }
  }

  /**
   * The netting loop.  Every round is the first connected debtor-creditor
   * pair in index order, a shortest route between them and the largest
   * amount that settles one of them; the recorded transfers replayed on the
   * starting balances give the final ones; and when the loop stops no debtor
   * can reach any creditor.
   */
  method NettingLoop(organizations: seq<Organization>) returns (allTransactions: seq<TransactionPath>)
    requires Distinct(organizations)
    modifies organizations
    ensures Run(Modes(organizations), old(Balances(organizations)), allTransactions)
    ensures Balances(organizations) == Replay(old(Balances(organizations)), allTransactions)
    ensures Terminal(Modes(organizations), Balances(organizations))
  {
    ghost var g := Modes(organizations);
    ghost var b0 := Balances(organizations);
    allTransactions := [];
    while true
      invariant Balances(organizations) == Replay(b0, allTransactions)
      invariant Run(g, b0, allTransactions)
      decreases NonZeroCount(Balances(organizations))
    {
      var b := Balances(organizations);
      var debtors := Debtors(b);
      var creditors := Creditors(b);
      if debtors == [] || creditors == [] {
        OneSideEmptyTerminal(g, b);
        break;
      }
      var pathFound := false;
      var step := TransactionPath([], 0, []);
      ghost var before := allTransactions;
      NoConnectionAtStart(g, b);
      var i := 0;
      while i < |debtors|
        invariant i <= |debtors|
        invariant !pathFound ==> Balances(organizations) == b
        invariant !pathFound ==> NoConnectionBefore(g, b, EntryOr(debtors, i, |b|), 0)
        invariant pathFound ==> StepOk(g, b, step) && Balances(organizations) == Apply(b, step)
        invariant allTransactions == if pathFound then before + [step] else before
      {
        if pathFound {
          break;
        }
        var debtor := debtors[i];
        assert debtor in debtors;
        pathFound, step, allTransactions := ScanCreditors(organizations, debtor, creditors, allTransactions, g, b);
        if !pathFound {
          NoConnectionNextDebtor(g, b, i);
        }
        i := i + 1;
      }
      if !pathFound {
        break;
      }
      StepShrinksSupport(g, b, step);
      RunExtend(g, b0, before, step);
    }
  }

  /**
   * The whole engine: fresh organizations for the participants, in order;
   * their starting balances from the pending ledger; then the netting loop,
   * whose transfers, replayed on the starting balances, give the returned
   * balances, at which no debtor can reach any creditor.
   */
  method MinimizeTransactions(participants: seq<BankCustomer>, ledger: seq<Transaction>)
    returns (allTransactions: seq<TransactionPath>, organizations: seq<Organization>)
    ensures |organizations| == |participants| && Distinct(organizations)
    ensures forall i :: 0 <= i < |participants| ==>
      fresh(organizations[i]) && organizations[i].bankCustomer == participants[i]
      && organizations[i].paymentModes == participants[i].compatibleModes
    ensures Run(Modes(organizations), StartingBalances(organizations, ledger), allTransactions)
    ensures Balances(organizations) == Replay(StartingBalances(organizations, ledger), allTransactions)
    ensures Terminal(Modes(organizations), Balances(organizations))
  {
    organizations := [];
    for i := 0 to |participants|
      invariant |organizations| == i && Distinct(organizations)
      invariant forall k :: 0 <= k < i ==>
        fresh(organizations[k]) && organizations[k].bankCustomer == participants[k]
        && organizations[k].paymentModes == participants[k].compatibleModes
    {
      var org := new Organization(participants[i]);
      organizations := organizations + [org];
    }
    ComputeNetAmounts(organizations, ledger);
    allTransactions := NettingLoop(organizations);
  }
}
