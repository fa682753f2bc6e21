/** The `payment` table's queries (the orders). */
module OrderRepository {
  import opened Wrappers
  import opened Seqs
  import opened Orders

  /** The table's key. */
  function OrderKey(o: OrderRecord): int
  {
    o.paymentId
  }

  function CreatedAtKey(o: OrderRecord): int
  {
    o.createdAt
  }

  /** `findById`. */
  function FindById(os: seq<OrderRecord>, paymentId: int): Option<OrderRecord>
  {
    FindByKey(os, OrderKey, paymentId)
  }

  /** `existsById`. */
  predicate ExistsById(os: seq<OrderRecord>, paymentId: int)
  {
    exists k :: 0 <= k < |os| && os[k].paymentId == paymentId
  }

  /** `existsById` holds exactly when `findById` finds the order. */
  lemma ExistsIffFound(os: seq<OrderRecord>, paymentId: int)
    ensures ExistsById(os, paymentId) <==> FindById(os, paymentId).Some?
  {
    if FindById(os, paymentId).Some? {
      var o := FindById(os, paymentId).value;
      var k :| 0 <= k < |os| && os[k] == o;
    }
  }

  /** `deleteById`. */
  function DeleteById(os: seq<OrderRecord>, paymentId: int): seq<OrderRecord>
  {
    DeleteByKey(os, OrderKey, paymentId)
  }

  /** `save` of an order that is already stored. */
  function Save(os: seq<OrderRecord>, o: OrderRecord): seq<OrderRecord>
  {
    SaveByKey(os, OrderKey, o)
  }

  /** `findByUsername`. */
  function FindByUsername(os: seq<OrderRecord>, username: string): seq<OrderRecord>
  {
    Filter(os, (o: OrderRecord) => o.username == username)
  }

  /** `findByUsernameOrderByCreatedAtDesc`: the customer's orders, newest first. */
  function FindByUsernameOrderByCreatedAtDesc(os: seq<OrderRecord>, username: string): (r: seq<OrderRecord>)
    ensures SortedDesc(r, CreatedAtKey)
    ensures multiset(r) == multiset(FindByUsername(os, username))
    ensures forall o :: o in r <==> o in os && o.username == username
  {
    SortDescMembers(FindByUsername(os, username), CreatedAtKey);
    SortDesc(FindByUsername(os, username), CreatedAtKey)
  }

  /** `findByOrderStatus`. */
  function FindByOrderStatus(os: seq<OrderRecord>, status: string): (r: seq<OrderRecord>)
    ensures forall o :: o in r <==> o in os && o.orderStatus == status
    ensures IsSubsequence(r, os)
  {
    Filter(os, (o: OrderRecord) => o.orderStatus == status)
  }

  /** `findByUsernameAndOrderStatus`. */
  function FindByUsernameAndOrderStatus(os: seq<OrderRecord>, username: string, status: string): seq<OrderRecord>
  {
    Filter(os, (o: OrderRecord) => o.username == username && o.orderStatus == status)
  }

  /** The combined finder lists, in table order, the customer's orders that have the status. */
  lemma {:induction false} UsernameAndStatusIsIntersection(os: seq<OrderRecord>, username: string, status: string)
    ensures FindByUsernameAndOrderStatus(os, username, status)
         == Filter(FindByUsername(os, username), (o: OrderRecord) => o.orderStatus == status)
    ensures forall o :: o in FindByUsernameAndOrderStatus(os, username, status)
                   <==> o in FindByUsername(os, username) && o in FindByOrderStatus(os, status)
    decreases |os|
  {
    if os != [] {
      UsernameAndStatusIsIntersection(os[1..], username, status);
    }
  }

  /** `findFirstByUsernameOrderByCreatedAtDesc`: the customer's newest order. */
  function FindFirstByUsernameOrderByCreatedAtDesc(os: seq<OrderRecord>, username: string): (r: Option<OrderRecord>)
    ensures r.None? <==> forall o :: o in os ==> o.username != username
    ensures r.Some? ==> r.value in os && r.value.username == username
    ensures r.Some? ==> forall o :: o in os && o.username == username ==> o.createdAt <= r.value.createdAt
  {
    var mine := FindByUsername(os, username);
    var sorted := FindByUsernameOrderByCreatedAtDesc(os, username);
    if sorted == [] then
      assert forall o :: o in os && o.username == username ==> o in sorted;
      None
    else
      SortDescHeadIsMax(mine, CreatedAtKey);
      Some(sorted[0])
  }

  /** `countByUsername`. */
  function CountByUsername(os: seq<OrderRecord>, username: string): nat
  {
    CountWhere(os, (o: OrderRecord) => o.username == username)
  }

  /** `countByOrderStatus`. */
  function CountByOrderStatus(os: seq<OrderRecord>, status: string): nat
  {
    CountWhere(os, (o: OrderRecord) => o.orderStatus == status)
  }

  /** The counting queries agree with the listing queries they shadow. */
  lemma CountsMatchListings(os: seq<OrderRecord>, username: string, status: string)
    ensures CountByUsername(os, username) == |FindByUsername(os, username)|
    ensures CountByOrderStatus(os, status) == |FindByOrderStatus(os, status)|
  {
    CountIsFilterLength(os, (o: OrderRecord) => o.username == username);
    CountIsFilterLength(os, (o: OrderRecord) => o.orderStatus == status);
  }
}
