/** The `delivery_assignments` table's queries (`DeliveryAssignmentRepository`). */
module AssignmentRepository {
  import opened Wrappers
  import opened Seqs
  import opened JavaText
  import opened SqlLike
  import opened DeliveryAssignments

  /** The table's key. */
  function AssignmentKey(a: AssignmentRecord): int
  {
    a.id
  }

  /** `findById`. */
  function FindById(rows: seq<AssignmentRecord>, id: int): Option<AssignmentRecord>
  {
    FindByKey(rows, AssignmentKey, id)
  }

  /** `save` of an assignment that is already stored. */
  function Save(rows: seq<AssignmentRecord>, a: AssignmentRecord): seq<AssignmentRecord>
  {
    SaveByKey(rows, AssignmentKey, a)
  }

  /** `deleteById`. */
  function DeleteById(rows: seq<AssignmentRecord>, id: int): seq<AssignmentRecord>
  {
    DeleteByKey(rows, AssignmentKey, id)
  }

  /** The uniqueness the table's keys and its unique `order_id` column guarantee. */
  predicate KeysUnique(rows: seq<AssignmentRecord>)
  {
    forall i, j :: 0 <= i < j < |rows| ==> rows[i].id != rows[j].id && rows[i].orderId != rows[j].orderId
  }

  /** `findByDeliveryPersonId`. */
  function FindByDeliveryPersonId(rows: seq<AssignmentRecord>, personId: int): seq<AssignmentRecord>
  {
    Filter(rows, (a: AssignmentRecord) => a.deliveryPersonId == personId)
  }

  /** `findByOrderPaymentId` (and `findByOrder`). */
  function FindByOrderPaymentId(rows: seq<AssignmentRecord>, orderId: int): Option<AssignmentRecord>
  {
    FindFirst(rows, (a: AssignmentRecord) => a.orderId == orderId)
  }

  /** `existsByOrderPaymentId` (and `existsByOrder`). */
  predicate ExistsByOrderPaymentId(rows: seq<AssignmentRecord>, orderId: int)
  {
    exists k :: 0 <= k < |rows| && rows[k].orderId == orderId
  }

  /** An order has an assignment exactly when looking it up finds one, and that one is the order's. */
  lemma ExistsIffFound(rows: seq<AssignmentRecord>, orderId: int)
    ensures ExistsByOrderPaymentId(rows, orderId) <==> FindByOrderPaymentId(rows, orderId).Some?
    ensures FindByOrderPaymentId(rows, orderId).Some? ==>
      FindByOrderPaymentId(rows, orderId).value in rows && FindByOrderPaymentId(rows, orderId).value.orderId == orderId
  {
    if ExistsByOrderPaymentId(rows, orderId) {
      var k :| 0 <= k < |rows| && rows[k].orderId == orderId;
      assert ((a: AssignmentRecord) => a.orderId == orderId)(rows[k]);
    }
  }

  /** `findByStatus`. */
  function FindByStatus(rows: seq<AssignmentRecord>, status: AssignmentStatus): seq<AssignmentRecord>
  {
    Filter(rows, (a: AssignmentRecord) => a.status == status)
  }

  /** `findByDeliveryPersonIdAndStatus`. */
  function FindByDeliveryPersonIdAndStatus(rows: seq<AssignmentRecord>, personId: int, status: AssignmentStatus): seq<AssignmentRecord>
  {
    Filter(rows, (a: AssignmentRecord) => a.deliveryPersonId == personId && a.status == status)
  }

  /** The statuses of a delivery still under way: `status IN (ASSIGNED, PICKED_UP)`. */
  predicate InProgress(s: AssignmentStatus)
  {
    s == ASSIGNED || s == PICKED_UP
  }

  /** `findActiveAssignmentsByDeliveryPersonId`. */
  function FindActiveAssignmentsByDeliveryPersonId(rows: seq<AssignmentRecord>, personId: int): (r: seq<AssignmentRecord>)
    ensures forall a :: a in r <==> a in rows && a.deliveryPersonId == personId && (a.status == ASSIGNED || a.status == PICKED_UP)
    ensures IsSubsequence(r, rows)
  {
    Filter(rows, (a: AssignmentRecord) => a.deliveryPersonId == personId && InProgress(a.status))
  }

  /** SQL `<` against a column that may be `NULL`: a `NULL` never compares. */
  predicate Before(t: Option<Time>, cutoff: Time)
  {
    t.Some? && t.value < cutoff
  }

  /** `findOverdueAssignments`: under way, and assigned strictly before the cut-off. */
  function FindOverdueAssignments(rows: seq<AssignmentRecord>, cutoff: Time): (r: seq<AssignmentRecord>)
    ensures forall a :: a in r <==>
      a in rows && a.assignedAt.Some? && a.assignedAt.value < cutoff && (a.status == ASSIGNED || a.status == PICKED_UP)
  {
    Filter(rows, (a: AssignmentRecord) => Before(a.assignedAt, cutoff) && InProgress(a.status))
  }

  /** SQL `BETWEEN` on a column that may be `NULL`: both bounds included. */
  predicate Between(t: Option<Time>, start: Time, end: Time)
  {
    t.Some? && start <= t.value <= end
  }

  /** `findByAssignedAtBetween`. */
  function FindByAssignedAtBetween(rows: seq<AssignmentRecord>, start: Time, end: Time): (r: seq<AssignmentRecord>)
    ensures forall a :: a in r <==> a in rows && a.assignedAt.Some? && start <= a.assignedAt.value <= end
  {
    Filter(rows, (a: AssignmentRecord) => Between(a.assignedAt, start, end))
  }

  /** `findByDeliveredAtBetween`. */
  function FindByDeliveredAtBetween(rows: seq<AssignmentRecord>, start: Time, end: Time): (r: seq<AssignmentRecord>)
    ensures forall a :: a in r <==> a in rows && a.deliveredAt.Some? && start <= a.deliveredAt.value <= end
  {
    Filter(rows, (a: AssignmentRecord) => Between(a.deliveredAt, start, end))
  }

  /** `countByStatus`. */
  function CountByStatus(rows: seq<AssignmentRecord>, status: AssignmentStatus): nat
  {
    CountWhere(rows, (a: AssignmentRecord) => a.status == status)
  }

  /** `countByDeliveryPersonId`. */
  function CountByDeliveryPersonId(rows: seq<AssignmentRecord>, personId: int): nat
  {
    CountWhere(rows, (a: AssignmentRecord) => a.deliveryPersonId == personId)
  }

  /** The counting queries agree with the listing queries they shadow. */
  lemma CountsMatchListings(rows: seq<AssignmentRecord>, status: AssignmentStatus, personId: int)
    ensures CountByStatus(rows, status) == |FindByStatus(rows, status)|
    ensures CountByDeliveryPersonId(rows, personId) == |FindByDeliveryPersonId(rows, personId)|
  {
    CountIsFilterLength(rows, (a: AssignmentRecord) => a.status == status);
    CountIsFilterLength(rows, (a: AssignmentRecord) => a.deliveryPersonId == personId);
  }

  /** The sort key of `ORDER BY assignedAt DESC`; MySQL puts `NULL`s last in descending order. */
  function AssignedAtKey(a: AssignmentRecord): int
  {
    if a.assignedAt.Some? then a.assignedAt.value else -1
  }

  /** `findAllByOrderByAssignedAtDesc`: every assignment, newest assignment first. */
  function FindAllByOrderByAssignedAtDesc(rows: seq<AssignmentRecord>): (r: seq<AssignmentRecord>)
    ensures SortedDesc(r, AssignedAtKey)
    ensures multiset(r) == multiset(rows)
  {
    SortDesc(rows, AssignedAtKey)
  }

  /** `findByDeliveryPersonIdOrderByAssignedAtDesc`: a courier's assignments, newest first. */
  function FindByDeliveryPersonIdOrderByAssignedAtDesc(rows: seq<AssignmentRecord>, personId: int): (r: seq<AssignmentRecord>)
    ensures SortedDesc(r, AssignedAtKey)
    ensures multiset(r) == multiset(FindByDeliveryPersonId(rows, personId))
    ensures forall a :: a in r <==> a in rows && a.deliveryPersonId == personId
  {
    SortDescMembers(FindByDeliveryPersonId(rows, personId), AssignedAtKey);
    SortDesc(FindByDeliveryPersonId(rows, personId), AssignedAtKey)
  }

  /**
   * `findByNotesContaining`: `notes LIKE %term%`, which a `NULL` note never matches; the term is
   * not escaped, so a plain term is a substring search and `%`, `_` and `\` are wildcards and escape.
   */
  function FindByNotesContaining(rows: seq<AssignmentRecord>, term: string): (r: seq<AssignmentRecord>)
    ensures forall a :: a in r <==> a in rows && a.notes.Some? && LikeMatch(a.notes.value, ContainingPattern(term))
    ensures IsPlain(term) ==> forall a :: a in r <==> a in rows && a.notes.Some? && exists i :: OccursAt(a.notes.value, term, i)
  {
    forall a | IsPlain(term) && a in rows && a.notes.Some?
      ensures LikeMatch(a.notes.value, ContainingPattern(term)) <==> exists i :: OccursAt(a.notes.value, term, i)
    {
      PlainTermLikeIsContains(a.notes.value, term);
      ContainsIff(a.notes.value, term);
    }
    Filter(rows, (a: AssignmentRecord) => a.notes.Some? && LikeMatch(a.notes.value, ContainingPattern(term)))
  }
}
