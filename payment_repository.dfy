/** The `customer_payment` table's queries. */
module CustomerPaymentRepository {
  import opened Wrappers
  import opened Seqs
  import opened CustomerPayments

  function CreatedAtKey(p: PaymentRecord): int
  {
    p.createdAt
  }

  /** `findByUsername`. */
  function FindByUsername(ps: seq<PaymentRecord>, username: string): seq<PaymentRecord>
  {
    Filter(ps, (p: PaymentRecord) => p.username == username)
  }

  /** `findByUsernameAndIsActiveTrue`. */
  function FindByUsernameAndIsActiveTrue(ps: seq<PaymentRecord>, username: string): seq<PaymentRecord>
  {
    Filter(ps, (p: PaymentRecord) => p.username == username && p.isActive)
  }

  /** The active finder keeps, in table order, exactly the active rows of the customer's list. */
  lemma {:induction false} ActiveIsSubsetOfUsername(ps: seq<PaymentRecord>, username: string)
    ensures FindByUsernameAndIsActiveTrue(ps, username)
         == Filter(FindByUsername(ps, username), (p: PaymentRecord) => p.isActive)
    decreases |ps|
  {
    if ps != [] {
      ActiveIsSubsetOfUsername(ps[1..], username);
    }
  }

  /** `findFirstByUsernameAndIsActiveTrueOrderByCreatedAtDesc`: the customer's newest active bank details. */
  function LatestActive(ps: seq<PaymentRecord>, username: string): (r: Option<PaymentRecord>)
  {
    var sorted := SortDesc(FindByUsernameAndIsActiveTrue(ps, username), CreatedAtKey);
    if sorted == [] then None else Some(sorted[0])
  }

  /** `existsByUsernameAndIsActiveTrue`. */
  predicate ExistsByUsernameAndIsActiveTrue(ps: seq<PaymentRecord>, username: string)
  {
    exists k :: 0 <= k < |ps| && ps[k].username == username && ps[k].isActive
  }

  /**
   * The newest active record is found exactly when one exists, belongs to the customer, is
   * active, and no active record of theirs is newer.
   */
  lemma LatestActiveIsNewest(ps: seq<PaymentRecord>, username: string)
    ensures LatestActive(ps, username).Some? <==> ExistsByUsernameAndIsActiveTrue(ps, username)
    ensures var r := LatestActive(ps, username);
      r.Some? ==>
        (&& r.value in ps && r.value.username == username && r.value.isActive
         && forall p :: p in ps && p.username == username && p.isActive ==> p.createdAt <= r.value.createdAt)
  {
    var f := FindByUsernameAndIsActiveTrue(ps, username);
    SortDescMembers(f, CreatedAtKey);
    if ExistsByUsernameAndIsActiveTrue(ps, username) {
      var k :| 0 <= k < |ps| && ps[k].username == username && ps[k].isActive;
      assert ps[k] in f;
    }
    if f != [] {
      SortDescHeadIsMax(f, CreatedAtKey);
    }
  }
}
