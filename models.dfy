/**
 * The banking side of the ledger: customers with a stored running balance,
 * transactions between them, and the per-customer ledger queries.
 *
 * Amounts are whole cents (the source uses two-decimal `Decimal`s), so the
 * 0.01 minimum on a transaction amount becomes "at least 1".  The ORM table
 * of transactions is an explicit sequence `ledger`; a query is a filter over
 * it, an aggregate `Sum` is a fold.
 */
module Models {

  /** The name of a payment mode (`PaymentMode.name`). */
  type ModeName = string

  /** The lifecycle flag of a transaction. */
  datatype Status = Pending | Completed | Cancelled | Settled

  class BankCustomer {
    /** The stored running balance (`net_amount`, default 0). */
    var netAmount: int
    /** The names of the modes listed in the customer's payment compatibilities. */
    const compatibleModes: set<ModeName>

    constructor (modes: set<ModeName>)
      ensures netAmount == 0 && compatibleModes == modes
    {
      netAmount := 0;
      compatibleModes := modes;
    }

    /** The position reported to the customer is the stored balance, not a recomputation. */
    function NetPosition(): (r: int)
      reads this
      ensures r == netAmount
    {
      netAmount
    }

    /** What this customer has paid out: completed transactions it sent. */
    function TotalDebtOwed(ledger: seq<Transaction>): (r: int)
      ensures ValidAmounts(ledger) ==> 0 <= r
      ensures ValidAmounts(ledger) ==>
        (r == 0 <==> forall t :: t in ledger && t.sender == this ==> t.status != Completed)
    {
      TotalSign(ledger, (t: Transaction) => t.sender == this && t.status == Completed);
      Total(ledger, (t: Transaction) => t.sender == this && t.status == Completed)
    }

    /** What this customer has been paid: completed transactions it received. */
    function TotalCreditReceived(ledger: seq<Transaction>): (r: int)
      ensures ValidAmounts(ledger) ==> 0 <= r
      ensures ValidAmounts(ledger) ==>
        (r == 0 <==> forall t :: t in ledger && t.receiver == this ==> t.status != Completed)
    {
      TotalSign(ledger, (t: Transaction) => t.receiver == this && t.status == Completed);
      Total(ledger, (t: Transaction) => t.receiver == this && t.status == Completed)
    }

    /** Pending transactions this customer takes part in, each counted once. */
    function PendingSettlementsCount(ledger: seq<Transaction>): (r: nat)
      ensures r <= |ledger|
      ensures r == 0 <==> forall t :: t in ledger && Involves(t, this) ==> t.status != Pending
    {
      |Select(ledger, (t: Transaction) => Involves(t, this) && t.status == Pending)|
    }

    /** At most `limit` (by default five) transactions this customer takes part in, newest first. */
    function RecentTransactions(ledger: seq<Transaction>, limit: nat := 5): (r: seq<Transaction>)
      ensures |r| == Min(limit, |Select(ledger, (t: Transaction) => Involves(t, this))|)
      ensures forall t :: t in r ==> t in ledger && Involves(t, this)
      ensures NewestFirst(r)
      ensures multiset(r) <= multiset(Select(ledger, (t: Transaction) => Involves(t, this)))
      ensures forall i, t :: 0 <= i < |r| && t in ledger && Involves(t, this) && t !in r ==>
        t.createdAt <= r[i].createdAt
    {
      var mine := Select(ledger, (t: Transaction) => Involves(t, this));
      var r := TakeNewest(mine, limit);
      assert forall t :: t in r ==> t in mine by {
        forall t | t in r ensures t in mine {
          assert t in multiset(r);
        }
      }
      r
    }
  }

  class Transaction {
    const sender: BankCustomer
    const receiver: BankCustomer
    /** In cents; the model field demands at least 0.01. */
    const amount: int
    const status: Status
    const createdAt: int

    constructor (sender: BankCustomer, receiver: BankCustomer, amount: int, status: Status, createdAt: int)
      ensures this.sender == sender && this.receiver == receiver && this.amount == amount
      ensures this.status == status && this.createdAt == createdAt
    {
      this.sender := sender;
      this.receiver := receiver;
      this.amount := amount;
      this.status := status;
      this.createdAt := createdAt;
    }

    /** Moves `amount` from the sender's stored balance to the receiver's. */
    method UpdateNetAmounts()
      modifies sender, receiver
      ensures sender != receiver ==> sender.netAmount == old(sender.netAmount) - amount
      ensures sender != receiver ==> receiver.netAmount == old(receiver.netAmount) + amount
      ensures sender == receiver ==> sender.netAmount == old(sender.netAmount)
      ensures sender.netAmount + receiver.netAmount == old(sender.netAmount + receiver.netAmount)
    {
      sender.netAmount := sender.netAmount - amount;
      receiver.netAmount := receiver.netAmount + amount;
    }

    /**
     * Persisting a transaction re-applies the balance shift whenever its status
     * is COMPLETED; the shift each party sees is exactly what the ledger queries
     * attribute to this one transaction.
     */
    method Save()
      modifies sender, receiver
      ensures status != Completed ==> unchanged(sender, receiver)
      ensures sender.netAmount == old(sender.netAmount) + LedgerShift(sender, [this])
      ensures receiver.netAmount == old(receiver.netAmount) + LedgerShift(receiver, [this])
    {
      LedgerShiftSingle(sender, this);
      LedgerShiftSingle(receiver, this);
      if status == Completed {
        UpdateNetAmounts();
      }
    }
  }

  function Min(a: int, b: int): int { if a <= b then a else b }

  /** `t` has `c` as its sender or its receiver. */
  predicate Involves(t: Transaction, c: BankCustomer) {
    t.sender == c || t.receiver == c
  }

  /** Every amount respects the 0.01 minimum. */
  predicate ValidAmounts(ledger: seq<Transaction>) {
    forall t :: t in ledger ==> t.amount >= 1
  }

  /** The aggregate `Sum('amount')` of the transactions `keep` selects, 0 when none. */
  function Total(ledger: seq<Transaction>, keep: Transaction -> bool): int {
    if ledger == [] then 0
    else (if keep(ledger[0]) then ledger[0].amount else 0) + Total(ledger[1..], keep)
  }

  /** An aggregate that selects nothing is 0, whatever the amounts. */
  lemma {:induction false} TotalNone(ledger: seq<Transaction>, keep: Transaction -> bool)
    requires forall t :: t in ledger ==> !keep(t)
    ensures Total(ledger, keep) == 0
  {
    if ledger != [] {
      assert ledger[0] in ledger;
      forall t | t in ledger[1..] ensures !keep(t) {
        assert t in ledger;
      }
      TotalNone(ledger[1..], keep);
    }
  }

  /** With amounts of at least 0.01 an aggregate is never negative, and is 0 exactly when it selects nothing. */
  lemma {:induction false} TotalSign(ledger: seq<Transaction>, keep: Transaction -> bool)
    ensures ValidAmounts(ledger) ==> 0 <= Total(ledger, keep)
    ensures ValidAmounts(ledger) ==> (Total(ledger, keep) == 0 <==> forall t :: t in ledger ==> !keep(t))
  {
    if ledger != [] {
      TotalSign(ledger[1..], keep);
      assert forall t :: t in ledger <==> t == ledger[0] || t in ledger[1..] by {
        assert ledger == [ledger[0]] + ledger[1..];
      }
    }
  }

  /** The transactions `keep` selects, in ledger order (a queryset filter). */
  function Select(ledger: seq<Transaction>, keep: Transaction -> bool): (r: seq<Transaction>)
    ensures |r| <= |ledger|
    ensures forall t :: t in r ==> t in ledger && keep(t)
    ensures forall t :: t in ledger && keep(t) ==> t in r
    ensures r == [] <==> forall t :: t in ledger ==> !keep(t)
    ensures multiset(r) <= multiset(ledger)
    ensures forall t :: t in ledger ==> multiset(r)[t] == if keep(t) then multiset(ledger)[t] else 0
  {
    if ledger == [] then []
    else
      var rest := Select(ledger[1..], keep);
      assert ledger == [ledger[0]] + ledger[1..];
      if keep(ledger[0]) then [ledger[0]] + rest else rest
  }

  /** Ordered by `-created_at`. */
  predicate NewestFirst(s: seq<Transaction>) {
    forall i, j :: 0 <= i < j < |s| ==> s[i].createdAt >= s[j].createdAt
  }

  /** Puts `t` in front of the first transaction no newer than it. */
  function InsertNewest(t: Transaction, s: seq<Transaction>): seq<Transaction> {
    if s == [] || s[0].createdAt <= t.createdAt then [t] + s
    else [s[0]] + InsertNewest(t, s[1..])
  }

  /** Inserting adds exactly `t`. */
  lemma {:induction false} InsertNewestCount(t: Transaction, s: seq<Transaction>)
    ensures multiset(InsertNewest(t, s)) == multiset(s) + multiset{t}
  {
    if !(s == [] || s[0].createdAt <= t.createdAt) {
      InsertNewestCount(t, s[1..]);
      assert s == [s[0]] + s[1..];
    }
  }

  /** Inserting into a newest-first sequence keeps it newest-first. */
  lemma {:induction false} InsertNewestSorted(t: Transaction, s: seq<Transaction>)
    requires NewestFirst(s)
    ensures NewestFirst(InsertNewest(t, s))
  {
    if s == [] || s[0].createdAt <= t.createdAt {
      PrependNewest(t, s);
    } else {
      var rest := InsertNewest(t, s[1..]);
      InsertNewestSorted(t, s[1..]);
      InsertNewestCount(t, s[1..]);
      assert s == [s[0]] + s[1..];
      forall x | x in rest ensures x.createdAt <= s[0].createdAt {
        assert x in multiset(rest);
      }
      PrependNewest(s[0], rest);
    }
  }

  /** A transaction no older than any of a newest-first sequence can go in front of it. */
  lemma PrependNewest(x: Transaction, s: seq<Transaction>)
    requires NewestFirst(s) && forall y :: y in s ==> y.createdAt <= x.createdAt
    ensures NewestFirst([x] + s)
  {
    var r := [x] + s;
    forall i, j | 0 <= i < j < |r| ensures r[i].createdAt >= r[j].createdAt {
      assert r[j] == s[j - 1];
      if i > 0 {
        assert r[i] == s[i - 1];
      }
    }
  }

  /** A stable sort by `-created_at`: ties keep ledger order. */
  function SortNewestFirst(s: seq<Transaction>): (r: seq<Transaction>)
    ensures NewestFirst(r)
    ensures multiset(r) == multiset(s)
    ensures |r| == |s|
  {
    if s == [] then []
    else
      var rest := SortNewestFirst(s[1..]);
      InsertNewestSorted(s[0], rest);
      InsertNewestCount(s[0], rest);
      assert s == [s[0]] + s[1..];
      assert |InsertNewest(s[0], rest)| == |multiset(InsertNewest(s[0], rest))|;
      InsertNewest(s[0], rest)
  }

  /** The `limit` newest transactions of `s` (`order_by('-created_at')[:limit]`). */
  function TakeNewest(s: seq<Transaction>, limit: nat): (r: seq<Transaction>)
    ensures |r| == Min(limit, |s|)
    ensures NewestFirst(r)
    ensures multiset(r) <= multiset(s)
    ensures forall i, t :: 0 <= i < |r| && t in s && t !in r ==> t.createdAt <= r[i].createdAt
  {
    var sorted := SortNewestFirst(s);
    var k := Min(limit, |sorted|);
    NewestPrefix(sorted, k);
    assert forall t :: t in s ==> t in sorted by {
      forall t | t in s ensures t in sorted {
        assert t in multiset(s);
      }
    }
    sorted[..k]
  }

  /** A prefix of a newest-first sequence holds its newest elements. */
  lemma NewestPrefix(s: seq<Transaction>, k: nat)
    requires NewestFirst(s) && k <= |s|
    ensures NewestFirst(s[..k])
    ensures multiset(s[..k]) <= multiset(s)
    ensures forall i, t :: 0 <= i < k && t in s && t !in s[..k] ==> t.createdAt <= s[i].createdAt
  {
    assert s == s[..k] + s[k..];
    forall i, t | 0 <= i < k && t in s && t !in s[..k]
      ensures t.createdAt <= s[i].createdAt
    {
      var j :| 0 <= j < |s| && s[j] == t;
      if j < k {
        assert s[..k][j] == t;
      }
    }
  }

  /** The balance shift that saving the transactions of `ledger` gives customer `c`. */
  function LedgerShift(c: BankCustomer, ledger: seq<Transaction>): int {
    c.TotalCreditReceived(ledger) - c.TotalDebtOwed(ledger)
  }

  /** The order in which an aggregate visits the rows does not matter. */
  lemma {:induction false} TotalAppend(a: seq<Transaction>, b: seq<Transaction>, keep: Transaction -> bool)
    ensures Total(a + b, keep) == Total(a, keep) + Total(b, keep)
  {
    if a != [] {
      assert (a + b)[0] == a[0];
      assert (a + b)[1..] == a[1..] + b;
      TotalAppend(a[1..], b, keep);
    } else {
      assert a + b == b;
    }
  }

  lemma {:induction false} TotalPermutation(a: seq<Transaction>, b: seq<Transaction>, keep: Transaction -> bool)
    requires multiset(a) == multiset(b)
    ensures Total(a, keep) == Total(b, keep)
  {
    if a == [] {
      assert |b| == |multiset(b)| == 0;
    } else {
      var x := a[0];
      assert x in multiset(b);
      var i :| 0 <= i < |b| && b[i] == x;
      var rest := b[..i] + b[i + 1..];
      MultisetRemove(b, i);
      assert a == [x] + a[1..];
      assert multiset(a[1..]) == multiset(a) - multiset{x};
      TotalPermutation(a[1..], rest, keep);
      TotalRemove(b, i, keep);
    }
  }

  lemma MultisetRemove(b: seq<Transaction>, i: nat)
    requires i < |b|
    ensures multiset(b[..i] + b[i + 1..]) == multiset(b) - multiset{b[i]}
  {
    assert b == b[..i] + [b[i]] + b[i + 1..];
  }

  /** Taking row `i` out of an aggregate takes out exactly its contribution. */
  lemma TotalRemove(b: seq<Transaction>, i: nat, keep: Transaction -> bool)
    requires i < |b|
    ensures Total(b, keep) == (if keep(b[i]) then b[i].amount else 0) + Total(b[..i] + b[i + 1..], keep)
  {
    var left, right := b[..i], b[i..];
    assert b == left + right;
    TotalAppend(left, right, keep);
    assert right[0] == b[i] && right[1..] == b[i + 1..];
    TotalAppend(left, b[i + 1..], keep);
  }

  lemma TotalSingle(x: Transaction, keep: Transaction -> bool)
    ensures Total([x], keep) == if keep(x) then x.amount else 0
  {
    assert [x][1..] == [];
  }

  /** What one transaction contributes to a customer's balance shift. */
  lemma LedgerShiftSingle(c: BankCustomer, t: Transaction)
    ensures LedgerShift(c, [t]) ==
      if t.status != Completed then 0
      else (if t.receiver == c then t.amount else 0) - (if t.sender == c then t.amount else 0)
  {
    TotalSingle(t, (t': Transaction) => t'.receiver == c && t'.status == Completed);
    TotalSingle(t, (t': Transaction) => t'.sender == c && t'.status == Completed);
  }

  /** Saving the transactions of `a + b` shifts a balance by the two shifts added. */
  lemma LedgerShiftAppend(c: BankCustomer, a: seq<Transaction>, b: seq<Transaction>)
    ensures LedgerShift(c, a + b) == LedgerShift(c, a) + LedgerShift(c, b)
  {
    TotalAppend(a, b, (t: Transaction) => t.receiver == c && t.status == Completed);
    TotalAppend(a, b, (t: Transaction) => t.sender == c && t.status == Completed);
  }

  /** Saving a completed transaction twice moves its amount twice: `save` is not idempotent. */
  lemma SaveTwiceShiftsTwice(t: Transaction)
    requires t.status == Completed && t.sender != t.receiver && t.amount >= 1
    ensures LedgerShift(t.sender, [t]) == -t.amount
    ensures LedgerShift(t.sender, [t, t]) == 2 * LedgerShift(t.sender, [t])
    ensures LedgerShift(t.sender, [t, t]) != LedgerShift(t.sender, [t])
  {
    assert [t][1..] == [];
    assert [t, t] == [t] + [t];
    LedgerShiftAppend(t.sender, [t], [t]);
  }

  /** Counting the rows either filter selects counts a row both select once. */
  lemma {:induction false} SelectEitherSize(ledger: seq<Transaction>, p: Transaction -> bool, q: Transaction -> bool,
                                            either: Transaction -> bool, both: Transaction -> bool)
    requires forall t :: either(t) == (p(t) || q(t))
    requires forall t :: both(t) == (p(t) && q(t))
    ensures |Select(ledger, either)| == |Select(ledger, p)| + |Select(ledger, q)| - |Select(ledger, both)|
  {
    if ledger != [] {
      SelectEitherSize(ledger[1..], p, q, either, both);
      SelectSizeStep(ledger, p);
      SelectSizeStep(ledger, q);
      SelectSizeStep(ledger, either);
      SelectSizeStep(ledger, both);
    }
  }

  lemma SelectSizeStep(ledger: seq<Transaction>, keep: Transaction -> bool)
    requires ledger != []
    ensures |Select(ledger, keep)| == (if keep(ledger[0]) then 1 else 0) + |Select(ledger[1..], keep)|
  {
  }

  /** A pending transaction is counted once even when it involves the customer twice. */
  lemma PendingCountInclusionExclusion(c: BankCustomer, ledger: seq<Transaction>)
    ensures c.PendingSettlementsCount(ledger)
      == |Select(ledger, (t: Transaction) => t.sender == c && t.status == Pending)|
       + |Select(ledger, (t: Transaction) => t.receiver == c && t.status == Pending)|
       - |Select(ledger, (t: Transaction) => t.sender == c && t.receiver == c && t.status == Pending)|
  {
    SelectEitherSize(ledger, (t: Transaction) => t.sender == c && t.status == Pending,
      (t: Transaction) => t.receiver == c && t.status == Pending,
      (t: Transaction) => Involves(t, c) && t.status == Pending,
      (t: Transaction) => t.sender == c && t.receiver == c && t.status == Pending);
  }
}
