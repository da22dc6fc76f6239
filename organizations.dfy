/**
 * The in-memory records the settlement engine works on: one `Organization`
 * per participant, holding its working balance and its payment-mode names,
 * and the `TransactionPath` a path search returns.
 */
module Organizations {
  import opened Models
  import opened CompatGraph

  class Organization {
    const bankCustomer: BankCustomer
    /** The working balance of one settlement run, starting at 0. */
    var netAmount: int
    /** The names of the customer's compatible payment modes. */
    const paymentModes: set<ModeName>

    constructor (bankCustomer: BankCustomer)
      ensures this.bankCustomer == bankCustomer
      ensures netAmount == 0 && paymentModes == bankCustomer.compatibleModes
    {
      this.bankCustomer := bankCustomer;
      netAmount := 0;
      paymentModes := bankCustomer.compatibleModes;
    }
  }

  /** A route through the participants, the amount to move, and one mode per hop. */
  datatype TransactionPath = TransactionPath(path: seq<nat>, amount: int, paymentModes: seq<ModeName>)

  /** The shared-mode graph over the organizations, by index. */
  function Modes(orgs: seq<Organization>): (g: Graph)
    ensures |g| == |orgs|
    ensures forall i :: 0 <= i < |orgs| ==> g[i] == orgs[i].paymentModes
  {
    seq(|orgs|, i requires 0 <= i < |orgs| => orgs[i].paymentModes)
  }

  /** The working balances, by index. */
  function Balances(orgs: seq<Organization>): (b: seq<int>)
    reads orgs
    ensures |b| == |orgs|
    ensures forall i :: 0 <= i < |orgs| ==> b[i] == orgs[i].netAmount
  {
    seq(|orgs|, i requires 0 <= i < |orgs| reads orgs => orgs[i].netAmount)
  }

  /** No organization object appears twice. */
  predicate Distinct(orgs: seq<Organization>) {
    forall i, j :: 0 <= i < j < |orgs| ==> orgs[i] != orgs[j]
  }
}
