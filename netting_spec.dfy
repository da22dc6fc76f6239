/**
 * What one round of the greedy netting loop does to the list of working
 * balances, stated over values: the balances are a `seq<int>` indexed like
 * the organizations, and a round is a `TransactionPath` whose first node is
 * the debtor and whose last node is the creditor.
 */
module NettingSpec {
  import opened Models
  import opened CompatGraph
  import opened Organizations

  function Sum(b: seq<int>): int {
    if b == [] then 0 else b[0] + Sum(b[1..])
  }

  /** How many balances are not settled yet. */
  function NonZeroCount(b: seq<int>): nat {
    if b == [] then 0 else (if b[0] != 0 then 1 else 0) + NonZeroCount(b[1..])
  }

  function Debtor(t: TransactionPath): nat
    requires t.path != []
  {
    t.path[0]
  }

  function Creditor(t: TransactionPath): nat
    requires t.path != []
  {
    t.path[|t.path| - 1]
  }

  /**
   * Applying a transfer: the debtor's balance goes up by the amount, then the
   * creditor's goes down by it; the nodes in between are untouched.  A
   * transfer whose ends are not balances changes nothing.
   */
  function Apply(b: seq<int>, t: TransactionPath): (r: seq<int>)
    ensures |r| == |b|
  {
    if t.path == [] || Debtor(t) >= |b| || Creditor(t) >= |b| then b
    else
      var b1 := b[Debtor(t) := b[Debtor(t)] + t.amount];
      b1[Creditor(t) := b1[Creditor(t)] - t.amount]
  }

  /** The balances after the transfers of `ts`, in order. */
  function Replay(b: seq<int>, ts: seq<TransactionPath>): (r: seq<int>)
    ensures |r| == |b|
  {
    if ts == [] then b else Apply(Replay(b, ts[..|ts| - 1]), ts[|ts| - 1])
  }

  /** No debtor-creditor pair before `(d0, c0)` in the loop's scan order is connected. */
  ghost predicate NoConnectionBefore(g: Graph, b: seq<int>, d0: nat, c0: nat) {
    forall d: nat, c: nat {:trigger Reachable(g, d, c)} ::
      d < |b| && c < |b| && b[d] < 0 < b[c] && (d < d0 || (d == d0 && c < c0)) ==> !Reachable(g, d, c)
  }

  /** `(d, c)` is the first connected debtor-creditor pair, debtors and creditors scanned by index. */
  ghost predicate FirstConnectable(g: Graph, b: seq<int>, d: nat, c: nat) {
    && d < |b| && c < |b| && b[d] < 0 < b[c]
    && Reachable(g, d, c)
    && NoConnectionBefore(g, b, d, c)
  }

  /** One round of the loop: the first connected pair, a shortest route, the largest amount. */
  ghost predicate StepOk(g: Graph, b: seq<int>, t: TransactionPath) {
    && t.path != []
    && FirstConnectable(g, b, Debtor(t), Creditor(t))
    && ShortestRoute(g, Debtor(t), Creditor(t), t.path, t.paymentModes)
    && t.amount == Min(-b[Debtor(t)], b[Creditor(t)])
  }

  /** `ts` are the rounds the loop performs from `b0`, each on the balances the earlier ones left. */
  ghost predicate Run(g: Graph, b0: seq<int>, ts: seq<TransactionPath>) {
    ts != [] ==> Run(g, b0, ts[..|ts| - 1]) && StepOk(g, Replay(b0, ts[..|ts| - 1]), ts[|ts| - 1])
  }

  /** Where the loop stops: no debtor can reach any creditor (vacuously so when one side is empty). */
  ghost predicate Terminal(g: Graph, b: seq<int>) {
    NoConnectionBefore(g, b, |b|, 0)
  }

  /** The indices `k` with `lo <= k < |b|` whose balance has the given sign, in increasing order. */
  function IndicesFrom(b: seq<int>, lo: nat, negative: bool): (r: seq<nat>)
    requires lo <= |b|
    ensures Increasing(r)
    ensures forall k: nat :: k in r <==> lo <= k < |b| && (if negative then b[k] < 0 else b[k] > 0)
    decreases |b| - lo
  {
    if lo == |b| then []
    else
      var rest := IndicesFrom(b, lo + 1, negative);
      if (if negative then b[lo] < 0 else b[lo] > 0) then
        assert forall i :: 0 <= i < |rest| ==> lo < rest[i] by {
          forall i | 0 <= i < |rest| ensures lo < rest[i] {
            assert rest[i] in rest;
          }
        }
        [lo] + rest
      else rest
  }

  /** `[i for i in range(n) if b[i] < 0]`. */
  function Debtors(b: seq<int>): (r: seq<nat>)
    ensures Increasing(r)
    ensures forall k: nat :: k in r <==> k < |b| && b[k] < 0
  {
    IndicesFrom(b, 0, true)
  }

  /** `[i for i in range(n) if b[i] > 0]`. */
  function Creditors(b: seq<int>): (r: seq<nat>)
    ensures Increasing(r)
    ensures forall k: nat :: k in r <==> k < |b| && b[k] > 0
  {
    IndicesFrom(b, 0, false)
  }

  /** The entry at position `i` of an index list, or `n` past its end. */
  function EntryOr(s: seq<nat>, i: nat, n: nat): nat {
    if i < |s| then s[i] else n
  }

  // ---- conservation ----

  lemma {:induction false} SumUpdate(b: seq<int>, i: nat, v: int)
    requires i < |b|
    ensures Sum(b[i := v]) == Sum(b) - b[i] + v
  {
    if i == 0 {
      assert b[i := v][1..] == b[1..];
    } else {
      assert b[i := v][1..] == b[1..][i - 1 := v];
      SumUpdate(b[1..], i - 1, v);
    }
  }

  /** A transfer adds to one balance what it takes from another. */
  lemma ApplyConserves(b: seq<int>, t: TransactionPath)
    ensures |Apply(b, t)| == |b|
    ensures Sum(Apply(b, t)) == Sum(b)
  {
    if !(t.path == [] || Debtor(t) >= |b| || Creditor(t) >= |b|) {
      var b1 := b[Debtor(t) := b[Debtor(t)] + t.amount];
      SumUpdate(b, Debtor(t), b[Debtor(t)] + t.amount);
      SumUpdate(b1, Creditor(t), b1[Creditor(t)] - t.amount);
    }
  }

  /** However many rounds run, the balances still add up to what they started at. */
  lemma {:induction false} ReplayConserves(b0: seq<int>, ts: seq<TransactionPath>)
    ensures |Replay(b0, ts)| == |b0|
    ensures Sum(Replay(b0, ts)) == Sum(b0)
  {
    if ts != [] {
      ReplayConserves(b0, ts[..|ts| - 1]);
      ApplyConserves(Replay(b0, ts[..|ts| - 1]), ts[|ts| - 1]);
    }
  }

  lemma RunExtend(g: Graph, b0: seq<int>, ts: seq<TransactionPath>, t: TransactionPath)
    requires Run(g, b0, ts) && StepOk(g, Replay(b0, ts), t)
    ensures Run(g, b0, ts + [t])
    ensures Replay(b0, ts + [t]) == Apply(Replay(b0, ts), t)
  {
    assert (ts + [t])[..|ts|] == ts;
  }

  // ---- one round shrinks the support ----

  lemma {:induction false} NonZeroUpdate(b: seq<int>, i: nat, v: int)
    requires i < |b|
    ensures NonZeroCount(b[i := v]) ==
      NonZeroCount(b) - (if b[i] != 0 then 1 else 0) + (if v != 0 then 1 else 0)
  {
    if i == 0 {
      assert b[i := v][1..] == b[1..];
    } else {
      assert b[i := v][1..] == b[1..][i - 1 := v];
      NonZeroUpdate(b[1..], i - 1, v);
    }
  }

  /**
   * A round moves a positive amount no larger than either side's balance:
   * the debtor ends at or below zero, the creditor at or above zero, at least
   * one of them exactly at zero, and every other balance, intermediate route
   * nodes included, is unchanged.  So one more balance is settled.
   */
  lemma StepShrinksSupport(g: Graph, b: seq<int>, t: TransactionPath)
    requires StepOk(g, b, t)
    ensures 0 < t.amount <= -b[Debtor(t)] && t.amount <= b[Creditor(t)]
    ensures |Apply(b, t)| == |b|
    ensures Apply(b, t)[Debtor(t)] == b[Debtor(t)] + t.amount <= 0
    ensures Apply(b, t)[Creditor(t)] == b[Creditor(t)] - t.amount >= 0
    ensures Apply(b, t)[Debtor(t)] == 0 || Apply(b, t)[Creditor(t)] == 0
    ensures forall k :: 0 <= k < |b| && k != Debtor(t) && k != Creditor(t) ==> Apply(b, t)[k] == b[k]
    ensures NonZeroCount(Apply(b, t)) < NonZeroCount(b)
  {
    var d, c := Debtor(t), Creditor(t);
    var b1 := b[d := b[d] + t.amount];
    NonZeroUpdate(b, d, b[d] + t.amount);
    NonZeroUpdate(b1, c, b1[c] - t.amount);
  }

  /**
   * Along a run no balance changes sign or grows in size: a debtor stays a
   * debtor or settles, a creditor stays a creditor or settles, a settled
   * participant (an intermediary, say) stays settled.
   */
  lemma {:induction false} RunPreservesSigns(g: Graph, b0: seq<int>, ts: seq<TransactionPath>)
    requires Run(g, b0, ts)
    ensures |Replay(b0, ts)| == |b0|
    ensures forall k :: 0 <= k < |b0| && b0[k] <= 0 ==> b0[k] <= Replay(b0, ts)[k] <= 0
    ensures forall k :: 0 <= k < |b0| && b0[k] >= 0 ==> 0 <= Replay(b0, ts)[k] <= b0[k]
  {
    if ts != [] {
      var pre := ts[..|ts| - 1];
      RunPreservesSigns(g, b0, pre);
      StepShrinksSupport(g, Replay(b0, pre), ts[|ts| - 1]);
    }
  }

  /** Every round settles somebody, so a run has at most as many rounds as there were open balances. */
  lemma {:induction false} RunLength(g: Graph, b0: seq<int>, ts: seq<TransactionPath>)
    requires Run(g, b0, ts)
    ensures |ts| + NonZeroCount(Replay(b0, ts)) <= NonZeroCount(b0)
  {
    if ts != [] {
      var pre := ts[..|ts| - 1];
      RunLength(g, b0, pre);
      StepShrinksSupport(g, Replay(b0, pre), ts[|ts| - 1]);
    }
  }

  // ---- the scan order ----

  /** Nothing in an increasing list lies below its first entry. */
  lemma ScanStart(s: seq<nat>, n: nat)
    requires Increasing(s)
    ensures forall x :: x in s ==> EntryOr(s, 0, n) <= x
  {
    forall x | x in s ensures EntryOr(s, 0, n) <= x {
      var k :| 0 <= k < |s| && s[k] == x;
      if k > 0 {
        assert s[0] < s[k];
      }
    }
  }

  lemma IncreasingMono(s: seq<nat>, i: nat, k: nat)
    requires Increasing(s) && i <= k < |s|
    ensures s[i] <= s[k]
  {
    if i < k {
      assert s[i] < s[k];
    }
  }

  /** Between entry `j` and entry `j + 1` an increasing list holds nothing else. */
  lemma ScanGap(s: seq<nat>, n: nat, j: nat, x: nat)
    requires Increasing(s) && j < |s| && x in s && x < EntryOr(s, j + 1, n)
    ensures x < s[j] || x == s[j]
  {
    var k :| 0 <= k < |s| && s[k] == x;
    if k > j {
      IncreasingMono(s, j + 1, k);
      assert false;
    }
    IncreasingMono(s, k, j);
  }

  /** Before the first debtor there is no pair to try. */
  lemma NoConnectionAtStart(g: Graph, b: seq<int>)
    ensures NoConnectionBefore(g, b, EntryOr(Debtors(b), 0, |b|), 0)
  {
    ScanStart(Debtors(b), |b|);
  }

  /** Before a debtor's first creditor there is no pair to try. */
  lemma NoConnectionFirstCreditor(g: Graph, b: seq<int>, d: nat)
    requires NoConnectionBefore(g, b, d, 0)
    ensures NoConnectionBefore(g, b, d, EntryOr(Creditors(b), 0, |b|))
  {
    ScanStart(Creditors(b), |b|);
  }

  /** Trying creditor number `j` of debtor `d` and failing extends the cleared region to creditor `j + 1`. */
  lemma NoConnectionNextCreditor(g: Graph, b: seq<int>, d: nat, j: nat)
    requires j < |Creditors(b)| && NoConnectionBefore(g, b, d, Creditors(b)[j])
    requires !Reachable(g, d, Creditors(b)[j])
    ensures NoConnectionBefore(g, b, d, EntryOr(Creditors(b), j + 1, |b|))
  {
    var cs := Creditors(b);
    forall d': nat, c: nat | d' < |b| && c < |b| && b[d'] < 0 < b[c]
        && (d' < d || (d' == d && c < EntryOr(cs, j + 1, |b|)))
      ensures !Reachable(g, d', c)
    {
      if d' == d {
        ScanGap(cs, |b|, j, c);
      }
    }
  }

  /** A debtor all of whose creditors failed moves the cleared region to the next debtor. */
  lemma NoConnectionNextDebtor(g: Graph, b: seq<int>, i: nat)
    requires i < |Debtors(b)| && NoConnectionBefore(g, b, Debtors(b)[i], |b|)
    ensures NoConnectionBefore(g, b, EntryOr(Debtors(b), i + 1, |b|), 0)
  {
    var ds := Debtors(b);
    forall d: nat, c: nat | d < |b| && c < |b| && b[d] < 0 < b[c] && d < EntryOr(ds, i + 1, |b|)
      ensures !Reachable(g, d, c)
    {
      ScanGap(ds, |b|, i, d);
    }
  }

  /** With no debtors or no creditors the loop is done. */
  lemma OneSideEmptyTerminal(g: Graph, b: seq<int>)
    requires Debtors(b) == [] || Creditors(b) == []
    ensures Terminal(g, b)
  {
  }

  // ---- where the loop stops ----

  /** Every two participants share a payment mode. */
  ghost predicate FullyCompatible(g: Graph) {
    forall u, v :: 0 <= u < |g| && 0 <= v < |g| && u != v ==> g[u] * g[v] != {}
  }

  /**
   * When every two participants share a mode, the loop can only stop once
   * there are no debtors left or no creditors left.
   */
  lemma TerminalWhenCompatible(g: Graph, b: seq<int>)
    requires |b| == |g| && FullyCompatible(g) && Terminal(g, b)
    ensures (forall k :: 0 <= k < |b| ==> b[k] >= 0) || (forall k :: 0 <= k < |b| ==> b[k] <= 0)
  {
    if exists d, c :: 0 <= d < |b| && 0 <= c < |b| && b[d] < 0 < b[c] {
      var d, c :| 0 <= d < |b| && 0 <= c < |b| && b[d] < 0 < b[c];
      EdgeReachable(g, d, c);
      assert false;
    }
  }

  lemma EdgeReachable(g: Graph, u: nat, v: nat)
    requires Edge(g, u, v)
    ensures Reachable(g, u, v)
  {
    assert WalkFromTo(g, [u, v], u, v);
  }

  /** Balances that add up to zero and are all of one sign are all zero. */
  lemma {:induction false} OneSignedZeroSum(b: seq<int>)
    requires Sum(b) == 0
    requires (forall k :: 0 <= k < |b| ==> b[k] >= 0) || (forall k :: 0 <= k < |b| ==> b[k] <= 0)
    ensures forall k :: 0 <= k < |b| ==> b[k] == 0
    ensures NonZeroCount(b) == 0
  {
    if b != [] {
      OneSignedBound(b[1..]);
      OneSignedZeroSum(b[1..]);
      forall k | 0 <= k < |b| ensures b[k] == 0 {
        if k > 0 {
          assert b[k] == b[1..][k - 1];
        }
      }
    }
  }

  lemma {:induction false} OneSignedBound(b: seq<int>)
    ensures (forall k :: 0 <= k < |b| ==> b[k] >= 0) ==> Sum(b) >= 0
    ensures (forall k :: 0 <= k < |b| ==> b[k] <= 0) ==> Sum(b) <= 0
  {
    if b != [] {
      OneSignedBound(b[1..]);
      assert forall k :: 0 <= k < |b[1..]| ==> b[1..][k] == b[k + 1];
    }
  }

  /**
   * Over a fully compatible set of participants whose balances add up to
   * zero, a run that stops leaves everybody settled.
   */
  lemma CompatibleRunSettlesAll(g: Graph, b0: seq<int>, ts: seq<TransactionPath>)
    requires |b0| == |g| && FullyCompatible(g) && Sum(b0) == 0
    requires Run(g, b0, ts) && Terminal(g, Replay(b0, ts))
    ensures forall k :: 0 <= k < |b0| ==> Replay(b0, ts)[k] == 0
  {
    ReplayConserves(b0, ts);
    TerminalWhenCompatible(g, Replay(b0, ts));
    OneSignedZeroSum(Replay(b0, ts));
  }
}
