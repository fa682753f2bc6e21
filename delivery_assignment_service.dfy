/**
 * `DeliveryAssignmentService`: hands paid orders to couriers and moves each delivery through its
 * life cycle. Every transition looks the assignment up, checks its guards, and only then sets the
 * status, the timestamps, the courier and the notes log before saving the row. A failed guard
 * throws one of two exceptions, which the delivery controllers answer with 400 and 409.
 */
module AssignmentService {
  import opened Wrappers
  import opened JavaText
  import opened DeliveryAssignments
  import opened DeliveryPersons
  import opened Orders
  import opened Database
  import OR = OrderRepository
  import PR = PersonRepository
  import AR = AssignmentRepository
  import Seqs

  /** `IllegalArgumentException` (a reference to nothing) and `IllegalStateException` (a forbidden transition). */
  datatype Failure = IllegalArgument(message: string) | IllegalState(message: string)

  /** What a service call returns: the saved row, or the exception it throws. */
  datatype Result = Saved(row: AssignmentRecord) | Rejected(failure: Failure)

  /** The assignments table after a transition, and what the call returned. */
  datatype Outcome = Outcome(rows: seq<AssignmentRecord>, result: Result)

  /** The assignments table and the key counter after `createAssignment`, and what it returned. */
  datatype Created = Created(rows: seq<AssignmentRecord>, nextId: int, result: Result)

  const PickupTag: string := "\n[PICKUP] "
  const DeliveryTag: string := "\n[DELIVERY] "
  const CancelledTag: string := "\n[CANCELLED] "
  const ReassignedTag: string := "\n[REASSIGNED] "
  const DeletedByAdministrator: string := "Assignment deleted by administrator"

  // The exceptions' messages.
  const NotAssigned: string := "Assignment must be in ASSIGNED status to mark as picked up"
  const NotPickedUp: string := "Assignment must be in PICKED_UP status to mark as delivered"
  const CancelDelivered: string := "Cannot cancel a delivered assignment"
  const ReassignDelivered: string := "Cannot reassign a delivered assignment"
  const NewPersonUnavailable: string := "New delivery person is not active or has been deleted"
  const OrderAssigned: string := "Order already has a delivery assignment"
  const PersonUnavailable: string := "Delivery person is not active or has been deleted"

  function NotFound(id: int): Failure
  {
    IllegalArgument("Assignment not found with ID: " + IntText(id))
  }

  function OrderNotFound(id: int): Failure
  {
    IllegalArgument("Order not found with ID: " + IntText(id))
  }

  function PersonNotFound(id: int): Failure
  {
    IllegalArgument("Delivery person not found with ID: " + IntText(id))
  }

  function NewPersonNotFound(id: int): Failure
  {
    IllegalArgument("New delivery person not found with ID: " + IntText(id))
  }

  /**
   * The notes log after an entry tagged `tag`: unchanged for a missing or blank text, otherwise
   * the old log (rendered `"null"` when there is none, as string concatenation does) followed by
   * the tag and the text.
   */
  function AppendNote(log: Option<string>, tag: string, text: Option<string>): (r: Option<string>)
    ensures IsNullOrBlank(text) ==> r == log
    ensures !IsNullOrBlank(text) ==> r.Some? && r.value == NullText(log) + tag + text.value
    ensures log.Some? ==> r.Some? && log.value <= r.value
  {
    if IsNullOrBlank(text) then log else Some(NullText(log) + tag + text.value)
  }

  /** The service's operations on one existing assignment. */
  datatype Action =
    | PickUp(notes: Option<string>)
    | Deliver(notes: Option<string>)
    | Cancel(reason: Option<string>)
    | Reassign(personId: int, reason: Option<string>)
    | EditNotes(notes: Option<string>)

  /** The row `markAsPickedUp` saves. */
  function PickedUp(a: AssignmentRecord, notes: Option<string>, now: Time): AssignmentRecord
  {
    a.(status := PICKED_UP, pickedUpAt := Some(now), updatedAt := Some(now), notes := AppendNote(a.notes, PickupTag, notes))
  }

  /** The row `markAsDelivered` saves. */
  function Delivered(a: AssignmentRecord, notes: Option<string>, now: Time): AssignmentRecord
  {
    a.(status := DELIVERED, deliveredAt := Some(now), updatedAt := Some(now), notes := AppendNote(a.notes, DeliveryTag, notes))
  }

  /** The row `cancelAssignment` saves. */
  function Cancelled(a: AssignmentRecord, reason: Option<string>, now: Time): AssignmentRecord
  {
    a.(status := CANCELLED, updatedAt := Some(now), notes := AppendNote(a.notes, CancelledTag, reason))
  }

  /** The row `reassignDeliveryPerson` saves. */
  function Reassigned(a: AssignmentRecord, personId: int, reason: Option<string>, now: Time): AssignmentRecord
  {
    a.(deliveryPersonId := personId, status := ASSIGNED, assignedAt := Some(now), pickedUpAt := None,
       updatedAt := Some(now), notes := AppendNote(a.notes, ReassignedTag, reason))
  }

  /** The row `updateNotes` saves. */
  function NotesEdited(a: AssignmentRecord, notes: Option<string>, now: Time): AssignmentRecord
  {
    a.(notes := notes, updatedAt := Some(now))
  }

  /** The guards and effect of one action on the stored row `a`; `persons` is the couriers table. */
  function Step(persons: seq<PersonRecord>, a: AssignmentRecord, action: Action, now: Time): Result
  {
    match action
    case PickUp(notes) =>
      if a.status != ASSIGNED then Rejected(IllegalState(NotAssigned)) else Saved(PickedUp(a, notes, now))
    case Deliver(notes) =>
      if a.status != PICKED_UP then Rejected(IllegalState(NotPickedUp)) else Saved(Delivered(a, notes, now))
    case Cancel(reason) =>
      if a.status == DELIVERED then Rejected(IllegalState(CancelDelivered)) else Saved(Cancelled(a, reason, now))
    case Reassign(personId, reason) =>
      if a.status == DELIVERED then Rejected(IllegalState(ReassignDelivered))
      else if PR.FindById(persons, personId).None? then Rejected(NewPersonNotFound(personId))
      else if !Available(PR.FindById(persons, personId).value) then Rejected(IllegalState(NewPersonUnavailable))
      else Saved(Reassigned(a, personId, reason, now))
    case EditNotes(notes) =>
      Saved(NotesEdited(a, notes, now))
  }

  /**
   * A service call on the assignment with key `id`: an unknown key is a bad reference; a failed
   * guard throws before anything is written; otherwise the changed row is saved.
   */
  function Transition(rows: seq<AssignmentRecord>, persons: seq<PersonRecord>, id: int, action: Action, now: Time): (out: Outcome)
    ensures out.result.Rejected? ==> out.rows == rows
    ensures AR.FindById(rows, id).None? ==> out.result == Rejected(NotFound(id))
  {
    match AR.FindById(rows, id)
    case None => Outcome(rows, Rejected(NotFound(id)))
    case Some(a) =>
      match Step(persons, a, action, now)
      case Rejected(f) => Outcome(rows, Rejected(f))
      case Saved(r) => Outcome(AR.Save(rows, r), Saved(r))
  }

  /** `createAssignment`'s guards, in the order it checks them, and the row it inserts. */
  function Creation(rows: seq<AssignmentRecord>, orders: seq<OrderRecord>, persons: seq<PersonRecord>,
                    orderId: int, personId: int, notes: Option<string>, nextId: int, now: Time): Created
  {
    if OR.FindById(orders, orderId).None? then
      Created(rows, nextId, Rejected(OrderNotFound(orderId)))
    else if AR.ExistsByOrderPaymentId(rows, orderId) then
      Created(rows, nextId, Rejected(IllegalState(OrderAssigned)))
    else if PR.FindById(persons, personId).None? then
      Created(rows, nextId, Rejected(PersonNotFound(personId)))
    else if !Available(PR.FindById(persons, personId).value) then
      Created(rows, nextId, Rejected(IllegalState(PersonUnavailable)))
    else
      var row := NewAssignment(nextId, personId, orderId, notes, now);
      Created(rows + [row], nextId + 1, Saved(row))
  }

  /** The row `createAssignment` inserts under the key `id`. */
  function NewAssignment(id: int, personId: int, orderId: int, notes: Option<string>, now: Time): AssignmentRecord
  {
    AssignmentRecord(id, personId, orderId, ASSIGNED, Some(now), None, None, notes, Some(now), Some(now))
  }

  // ---------------------------------------------------------------------------------------------
  // What the transitions promise

  /** The table's invariant: unique keys and orders, and every key below the next one handed out. */
  predicate TableValid(rows: seq<AssignmentRecord>, nextId: int)
  {
    AR.KeysUnique(rows) && forall k :: 0 <= k < |rows| ==> rows[k].id < nextId
  }

  /** A transition never changes which assignment a row is, nor which order it delivers. */
  lemma StepKeepsIdentity(persons: seq<PersonRecord>, a: AssignmentRecord, action: Action, now: Time)
    ensures Step(persons, a, action, now).Saved? ==>
      Step(persons, a, action, now).row.id == a.id && Step(persons, a, action, now).row.orderId == a.orderId
  {
  }

  /**
   * A successful transition replaces exactly the looked-up row: its key now finds the saved row,
   * and every other key finds what it found before.
   */
  lemma TransitionReplacesOneRow(rows: seq<AssignmentRecord>, persons: seq<PersonRecord>, id: int, action: Action, now: Time, other: int)
    requires other != id
    ensures var out := Transition(rows, persons, id, action, now);
      out.result.Saved? ==>
        && AR.FindById(out.rows, id) == Some(out.result.row)
        && AR.FindById(out.rows, other) == AR.FindById(rows, other)
        && |out.rows| == |rows|
  {
    var out := Transition(rows, persons, id, action, now);
    if out.result.Saved? {
      var a := AR.FindById(rows, id).value;
      StepKeepsIdentity(persons, a, action, now);
      Seqs.FindAfterSave(rows, AR.AssignmentKey, out.result.row, id);
      Seqs.FindAfterSave(rows, AR.AssignmentKey, out.result.row, other);
    }
  }

  /** Saving a row under its own key and order keeps the keys and orders unique. */
  lemma {:induction false} SaveKeepsValid(rows: seq<AssignmentRecord>, nextId: int, a: AssignmentRecord, r: AssignmentRecord)
    requires TableValid(rows, nextId)
    requires a in rows && r.id == a.id && r.orderId == a.orderId
    ensures TableValid(AR.Save(rows, r), nextId)
  {
    var s := AR.Save(rows, r);
    var i :| 0 <= i < |rows| && rows[i] == a;
    assert forall k :: 0 <= k < |rows| ==> s[k] == if rows[k].id == r.id then r else rows[k];
    forall k | 0 <= k < |rows| && k != i
      ensures rows[k].id != r.id
    {
    }
    assert forall k :: 0 <= k < |rows| ==> s[k].id == rows[k].id && s[k].orderId == rows[k].orderId;
  }

  /** Every transition keeps the table valid: in particular an order never gains a second assignment. */
  lemma TransitionKeepsValid(rows: seq<AssignmentRecord>, nextId: int, persons: seq<PersonRecord>, id: int, action: Action, now: Time)
    requires TableValid(rows, nextId)
    ensures TableValid(Transition(rows, persons, id, action, now).rows, nextId)
  {
    var out := Transition(rows, persons, id, action, now);
    if out.result.Saved? {
      var a := AR.FindById(rows, id).value;
      StepKeepsIdentity(persons, a, action, now);
      SaveKeepsValid(rows, nextId, a, out.result.row);
    }
  }

  /**
   * `createAssignment` succeeds exactly when the order exists and has no assignment yet and the
   * courier exists and is available; it then appends one ASSIGNED row carrying the notes and keeps
   * the table valid, and otherwise changes nothing.
   */
  lemma CreationContract(rows: seq<AssignmentRecord>, orders: seq<OrderRecord>, persons: seq<PersonRecord>,
                         orderId: int, personId: int, notes: Option<string>, nextId: int, now: Time)
    requires TableValid(rows, nextId)
    ensures var c := Creation(rows, orders, persons, orderId, personId, notes, nextId, now);
      && (c.result.Saved? <==>
           (&& OR.FindById(orders, orderId).Some?
            && (forall k :: 0 <= k < |rows| ==> rows[k].orderId != orderId)
            && PR.FindById(persons, personId).Some? && Available(PR.FindById(persons, personId).value)))
      && (c.result.Rejected? ==> c.rows == rows && c.nextId == nextId)
      && (c.result.Saved? ==>
           && c.rows == rows + [c.result.row]
           && c.result.row.status == ASSIGNED && c.result.row.notes == notes
           && c.result.row.orderId == orderId && c.result.row.deliveryPersonId == personId
           && c.result.row.assignedAt == Some(now) && c.result.row.pickedUpAt.None? && c.result.row.deliveredAt.None?)
      && TableValid(c.rows, c.nextId)
  {
    var c := Creation(rows, orders, persons, orderId, personId, notes, nextId, now);
    if c.result.Saved? {
      var s := c.rows;
      assert forall k :: 0 <= k < |rows| ==> s[k] == rows[k];
      assert s[|rows|] == c.result.row;
    }
  }

  /** The order's guards come first: a missing order is a bad reference, an assigned one an illegal state. */
  lemma CreationChecksOrderFirst(rows: seq<AssignmentRecord>, orders: seq<OrderRecord>, persons: seq<PersonRecord>,
                                 orderId: int, personId: int, notes: Option<string>, nextId: int, now: Time)
    ensures var c := Creation(rows, orders, persons, orderId, personId, notes, nextId, now);
      && (OR.FindById(orders, orderId).None? ==> c.result.Rejected? && c.result.failure.IllegalArgument?)
      && (OR.FindById(orders, orderId).Some? && AR.FindByOrderPaymentId(rows, orderId).Some? ==>
            c.result == Rejected(IllegalState(OrderAssigned)))
      && (OR.FindById(orders, orderId).Some? && AR.FindByOrderPaymentId(rows, orderId).None? && PR.FindById(persons, personId).None? ==>
            c.result.Rejected? && c.result.failure.IllegalArgument?)
      && (OR.FindById(orders, orderId).Some? && AR.FindByOrderPaymentId(rows, orderId).None? && PR.FindById(persons, personId).Some?
          && !Available(PR.FindById(persons, personId).value) ==>
            c.result == Rejected(IllegalState(PersonUnavailable)))
  {
    AR.ExistsIffFound(rows, orderId);
  }

  /** Picking up succeeds exactly from ASSIGNED; it stamps the pick-up and logs non-blank notes. */
  lemma PickUpContract(rows: seq<AssignmentRecord>, persons: seq<PersonRecord>, id: int, notes: Option<string>, now: Time)
    ensures var out := Transition(rows, persons, id, PickUp(notes), now);
      && (out.result.Saved? <==> AR.FindById(rows, id).Some? && AR.FindById(rows, id).value.status == ASSIGNED)
      && (out.result.Saved? ==>
           var a := AR.FindById(rows, id).value;
           && out.result.row == a.(status := PICKED_UP, pickedUpAt := Some(now), updatedAt := Some(now), notes := out.result.row.notes)
           && (IsNullOrBlank(notes) ==> out.result.row.notes == a.notes)
           && (!IsNullOrBlank(notes) ==> out.result.row.notes == Some(NullText(a.notes) + PickupTag + notes.value)))
  {
  }

  /** Delivering succeeds exactly from PICKED_UP; it stamps the delivery and logs non-blank notes. */
  lemma DeliverContract(rows: seq<AssignmentRecord>, persons: seq<PersonRecord>, id: int, notes: Option<string>, now: Time)
    ensures var out := Transition(rows, persons, id, Deliver(notes), now);
      && (out.result.Saved? <==> AR.FindById(rows, id).Some? && AR.FindById(rows, id).value.status == PICKED_UP)
      && (out.result.Saved? ==>
           var a := AR.FindById(rows, id).value;
           && out.result.row == a.(status := DELIVERED, deliveredAt := Some(now), updatedAt := Some(now), notes := out.result.row.notes)
           && (IsNullOrBlank(notes) ==> out.result.row.notes == a.notes)
           && (!IsNullOrBlank(notes) ==> out.result.row.notes == Some(NullText(a.notes) + DeliveryTag + notes.value)))
  {
  }

  /**
   * Cancelling is refused only for a delivered assignment, so a cancelled one can be cancelled
   * again; nothing but the status, the timestamp and the log changes.
   */
  lemma CancelContract(rows: seq<AssignmentRecord>, persons: seq<PersonRecord>, id: int, reason: Option<string>, now: Time)
    ensures var out := Transition(rows, persons, id, Cancel(reason), now);
      && (out.result.Saved? <==> AR.FindById(rows, id).Some? && AR.FindById(rows, id).value.status != DELIVERED)
      && (out.result.Saved? ==>
           var a := AR.FindById(rows, id).value;
           && out.result.row == a.(status := CANCELLED, updatedAt := Some(now), notes := out.result.row.notes)
           && (IsNullOrBlank(reason) ==> out.result.row.notes == a.notes)
           && (!IsNullOrBlank(reason) ==> out.result.row.notes == Some(NullText(a.notes) + CancelledTag + reason.value)))
  {
  }

  /**
   * Reassigning is refused for a delivered assignment, an unknown courier and an unavailable one,
   * in that order; otherwise the new courier gets the delivery afresh: ASSIGNED now, the pick-up
   * cleared, the delivery time left as it was. A cancelled assignment is revived this way.
   */
  lemma ReassignContract(rows: seq<AssignmentRecord>, persons: seq<PersonRecord>, id: int, personId: int, reason: Option<string>, now: Time)
    requires AR.FindById(rows, id).Some?
    ensures var a := AR.FindById(rows, id).value;
      var out := Transition(rows, persons, id, Reassign(personId, reason), now);
      && (a.status == DELIVERED ==> out.result == Rejected(IllegalState(ReassignDelivered)))
      && (a.status != DELIVERED && PR.FindById(persons, personId).None? ==>
            out.result.Rejected? && out.result.failure.IllegalArgument?)
      && (a.status != DELIVERED && PR.FindById(persons, personId).Some? && !Available(PR.FindById(persons, personId).value) ==>
            out.result == Rejected(IllegalState(NewPersonUnavailable)))
      && (out.result.Saved? <==>
            a.status != DELIVERED && PR.FindById(persons, personId).Some? && Available(PR.FindById(persons, personId).value))
      && (out.result.Saved? ==>
           && out.result.row.deliveryPersonId == personId && out.result.row.status == ASSIGNED
           && out.result.row.assignedAt == Some(now) && out.result.row.pickedUpAt.None?
           && out.result.row.deliveredAt == a.deliveredAt && out.result.row.createdAt == a.createdAt
           && out.result.row.notes == AppendNote(a.notes, ReassignedTag, reason))
  {
  }

  /** Editing the notes works in every status, overwrites the log verbatim and touches nothing else. */
  lemma EditNotesContract(rows: seq<AssignmentRecord>, persons: seq<PersonRecord>, id: int, notes: Option<string>, now: Time)
    ensures var out := Transition(rows, persons, id, EditNotes(notes), now);
      && (out.result.Saved? <==> AR.FindById(rows, id).Some?)
      && (out.result.Saved? ==> out.result.row == AR.FindById(rows, id).value.(notes := notes, updatedAt := Some(now)))
  {
  }

  /** The service reaches DELIVERED only by delivering a picked-up assignment. */
  lemma DeliveredOnlyFromPickedUp(persons: seq<PersonRecord>, a: AssignmentRecord, action: Action, now: Time)
    requires a.status != DELIVERED
    requires Step(persons, a, action, now).Saved? && Step(persons, a, action, now).row.status == DELIVERED
    ensures action.Deliver? && a.status == PICKED_UP
  {
  }

  /** A delivered assignment stays delivered: only the notes can still be edited. */
  lemma DeliveredIsFinal(persons: seq<PersonRecord>, a: AssignmentRecord, action: Action, now: Time)
    requires a.status == DELIVERED
    ensures Step(persons, a, action, now).Saved? <==> action.EditNotes?
    ensures Step(persons, a, action, now).Saved? ==> Step(persons, a, action, now).row.status == DELIVERED
  {
  }

  /** Apart from editing the notes, a transition only ever appends to the log. */
  lemma TransitionsAppendToLog(persons: seq<PersonRecord>, a: AssignmentRecord, action: Action, now: Time)
    requires !action.EditNotes? && a.notes.Some?
    requires Step(persons, a, action, now).Saved?
    ensures Step(persons, a, action, now).row.notes.Some?
    ensures a.notes.value <= Step(persons, a, action, now).row.notes.value
  {
  }

  /**
   * `deleteAssignment` removes nothing: it cancels the assignment, logging the administrator's
   * deletion, and is refused for a delivered one.
   */
  lemma DeleteCancels(rows: seq<AssignmentRecord>, persons: seq<PersonRecord>, id: int, now: Time)
    requires AR.FindById(rows, id).Some?
    ensures var a := AR.FindById(rows, id).value;
      var out := Transition(rows, persons, id, Cancel(Some(DeletedByAdministrator)), now);
      && |out.rows| == |rows|
      && (a.status == DELIVERED ==> out.result == Rejected(IllegalState(CancelDelivered)))
      && (a.status != DELIVERED ==>
            && out.result.Saved? && out.result.row.status == CANCELLED
            && out.result.row.notes == Some(NullText(a.notes) + CancelledTag + DeletedByAdministrator))
  {
    assert !IsBlank(DeletedByAdministrator) by {
      assert !IsTrimmed(DeletedByAdministrator[0]);
    }
  }

  // ---------------------------------------------------------------------------------------------
  // The service methods

  /** `createAssignment`. */
  method CreateAssignment(db: Store, orderId: int, personId: int, notes: Option<string>, now: Time) returns (result: Result)
    modifies db`assignments, db`nextId
    ensures Created(db.assignments, db.nextId, result)
         == Creation(old(db.assignments), db.orders, db.persons, orderId, personId, notes, old(db.nextId), now)
  {
    if OR.FindById(db.orders, orderId).None? {
      return Rejected(OrderNotFound(orderId));
    }
    if AR.FindByOrderPaymentId(db.assignments, orderId).Some? {
      AR.ExistsIffFound(db.assignments, orderId);
      return Rejected(IllegalState(OrderAssigned));
    }
    AR.ExistsIffFound(db.assignments, orderId);
    var person := PR.FindById(db.persons, personId);
    if person.None? {
      return Rejected(PersonNotFound(personId));
    }
    if !person.value.isActive || person.value.isDeleted {
      return Rejected(IllegalState(PersonUnavailable));
    }
    result := InsertAssignment(db, orderId, personId, notes, now);
  }

  /** The entity `createAssignment` builds and saves once its guards have passed. */
  method InsertAssignment(db: Store, orderId: int, personId: int, notes: Option<string>, now: Time) returns (result: Result)
    modifies db`assignments, db`nextId
    ensures result == Saved(NewAssignment(old(db.nextId), personId, orderId, notes, now))
    ensures db.assignments == old(db.assignments) + [result.row] && db.nextId == old(db.nextId) + 1
  {
    var assignment := new DeliveryAssignment(now);
    assignment.orderId := Some(orderId);
    assignment.deliveryPersonId := Some(personId);
    assignment.status := ASSIGNED;
    assignment.assignedAt := Some(now);
    assignment.notes := notes;
    assignment.createdAt := Some(now);
    assignment.updatedAt := Some(now);
    var key := db.NewKey();
    assignment.id := Some(key);
    var row := assignment.Record();
    db.assignments := db.assignments + [row];
    result := Saved(row);
  }

  /** A transition whose row was found and whose step went through saves the step's row. */
  lemma TransitionSaves(rows: seq<AssignmentRecord>, persons: seq<PersonRecord>, id: int, action: Action, now: Time, a: AssignmentRecord)
    requires AR.FindById(rows, id) == Some(a) && Step(persons, a, action, now).Saved?
    ensures Transition(rows, persons, id, action, now)
         == Outcome(AR.Save(rows, Step(persons, a, action, now).row), Step(persons, a, action, now))
  {
  }

  /** `if (text != null && !text.trim().isEmpty()) setNotes(getNotes() + tag + text)`. */
  method AppendToLog(assignment: DeliveryAssignment, tag: string, text: Option<string>)
    modifies assignment`notes
    ensures assignment.notes == AppendNote(old(assignment.notes), tag, text)
  {
    if !IsNullOrBlank(text) {
      assignment.notes := Some(NullText(assignment.notes) + tag + text.value);
    }
  }

  /** `deliveryAssignmentRepository.save` of an assignment that is already stored. */
  method SaveAssignment(db: Store, assignment: DeliveryAssignment) returns (result: Result)
    requires assignment.Complete()
    modifies db`assignments
    ensures db.assignments == AR.Save(old(db.assignments), assignment.Record())
    ensures result == Saved(assignment.Record())
  {
    var row := assignment.Record();
    db.assignments := AR.Save(db.assignments, row);
    result := Saved(row);
  }

  /** `markAsPickedUp`. */
  method MarkAsPickedUp(db: Store, assignmentId: int, notes: Option<string>, now: Time) returns (result: Result)
    modifies db`assignments
    ensures Outcome(db.assignments, result) == Transition(old(db.assignments), db.persons, assignmentId, PickUp(notes), now)
  {
    var row := AR.FindById(db.assignments, assignmentId);
    if row.None? {
      return Rejected(NotFound(assignmentId));
    }
    if row.value.status != ASSIGNED {
      return Rejected(IllegalState(NotAssigned));
    }
    TransitionSaves(db.assignments, db.persons, assignmentId, PickUp(notes), now, row.value);
    result := PickUpRow(db, row.value, notes, now);
  }

  /** The setters and the save `markAsPickedUp` performs once its guards have passed. */
  method PickUpRow(db: Store, a: AssignmentRecord, notes: Option<string>, now: Time) returns (result: Result)
    modifies db`assignments
    ensures result == Saved(PickedUp(a, notes, now))
    ensures db.assignments == AR.Save(old(db.assignments), result.row)
  {
    var assignment := new DeliveryAssignment.Load(a);
    assignment.status := PICKED_UP;
    assignment.pickedUpAt := Some(now);
    assignment.updatedAt := Some(now);
    AppendToLog(assignment, PickupTag, notes);
    assignment.PreUpdate(now);
    result := SaveAssignment(db, assignment);
  }

  /** `markAsDelivered`. */
  method MarkAsDelivered(db: Store, assignmentId: int, notes: Option<string>, now: Time) returns (result: Result)
    modifies db`assignments
    ensures Outcome(db.assignments, result) == Transition(old(db.assignments), db.persons, assignmentId, Deliver(notes), now)
  {
    var row := AR.FindById(db.assignments, assignmentId);
    if row.None? {
      return Rejected(NotFound(assignmentId));
    }
    if row.value.status != PICKED_UP {
      return Rejected(IllegalState(NotPickedUp));
    }
    TransitionSaves(db.assignments, db.persons, assignmentId, Deliver(notes), now, row.value);
    result := DeliverRow(db, row.value, notes, now);
  }

  /** The setters and the save `markAsDelivered` performs once its guards have passed. */
  method DeliverRow(db: Store, a: AssignmentRecord, notes: Option<string>, now: Time) returns (result: Result)
    modifies db`assignments
    ensures result == Saved(Delivered(a, notes, now))
    ensures db.assignments == AR.Save(old(db.assignments), result.row)
  {
    var assignment := new DeliveryAssignment.Load(a);
    assignment.status := DELIVERED;
    assignment.deliveredAt := Some(now);
    assignment.updatedAt := Some(now);
    AppendToLog(assignment, DeliveryTag, notes);
    assignment.PreUpdate(now);
    result := SaveAssignment(db, assignment);
  }

  /** `cancelAssignment`. */
  method CancelAssignment(db: Store, assignmentId: int, reason: Option<string>, now: Time) returns (result: Result)
    modifies db`assignments
    ensures Outcome(db.assignments, result) == Transition(old(db.assignments), db.persons, assignmentId, Cancel(reason), now)
  {
    var row := AR.FindById(db.assignments, assignmentId);
    if row.None? {
      return Rejected(NotFound(assignmentId));
    }
    if row.value.status == DELIVERED {
      return Rejected(IllegalState(CancelDelivered));
    }
    TransitionSaves(db.assignments, db.persons, assignmentId, Cancel(reason), now, row.value);
    result := CancelRow(db, row.value, reason, now);
  }

  /** The setters and the save `cancelAssignment` performs once its guard has passed. */
  method CancelRow(db: Store, a: AssignmentRecord, reason: Option<string>, now: Time) returns (result: Result)
    modifies db`assignments
    ensures result == Saved(Cancelled(a, reason, now))
    ensures db.assignments == AR.Save(old(db.assignments), result.row)
  {
    var assignment := new DeliveryAssignment.Load(a);
    assignment.status := CANCELLED;
    assignment.updatedAt := Some(now);
    AppendToLog(assignment, CancelledTag, reason);
    assignment.PreUpdate(now);
    result := SaveAssignment(db, assignment);
  }

  /** `reassignDeliveryPerson`. */
  method ReassignDeliveryPerson(db: Store, assignmentId: int, personId: int, reason: Option<string>, now: Time) returns (result: Result)
    modifies db`assignments
    ensures Outcome(db.assignments, result) == Transition(old(db.assignments), db.persons, assignmentId, Reassign(personId, reason), now)
  {
    var row := AR.FindById(db.assignments, assignmentId);
    if row.None? {
      return Rejected(NotFound(assignmentId));
    }
    if row.value.status == DELIVERED {
      return Rejected(IllegalState(ReassignDelivered));
    }
    var person := PR.FindById(db.persons, personId);
    if person.None? {
      return Rejected(NewPersonNotFound(personId));
    }
    if !person.value.isActive || person.value.isDeleted {
      return Rejected(IllegalState(NewPersonUnavailable));
    }
    TransitionSaves(db.assignments, db.persons, assignmentId, Reassign(personId, reason), now, row.value);
    result := ReassignRow(db, row.value, personId, reason, now);
  }

  /** The setters and the save `reassignDeliveryPerson` performs once its guards have passed. */
  method ReassignRow(db: Store, a: AssignmentRecord, personId: int, reason: Option<string>, now: Time) returns (result: Result)
    modifies db`assignments
    ensures result == Saved(Reassigned(a, personId, reason, now))
    ensures db.assignments == AR.Save(old(db.assignments), result.row)
  {
    var assignment := new DeliveryAssignment.Load(a);
    assignment.deliveryPersonId := Some(personId);
    assignment.status := ASSIGNED;
    assignment.assignedAt := Some(now);
    assignment.pickedUpAt := None;
    assignment.updatedAt := Some(now);
    AppendToLog(assignment, ReassignedTag, reason);
    assignment.PreUpdate(now);
    result := SaveAssignment(db, assignment);
  }

  /** `updateNotes`. */
  method UpdateNotes(db: Store, assignmentId: int, notes: Option<string>, now: Time) returns (result: Result)
    modifies db`assignments
    ensures Outcome(db.assignments, result) == Transition(old(db.assignments), db.persons, assignmentId, EditNotes(notes), now)
  {
    var row := AR.FindById(db.assignments, assignmentId);
    if row.None? {
      return Rejected(NotFound(assignmentId));
    }
    TransitionSaves(db.assignments, db.persons, assignmentId, EditNotes(notes), now, row.value);
    result := EditNotesRow(db, row.value, notes, now);
  }

  /** The setters and the save of `updateNotes`. */
  method EditNotesRow(db: Store, a: AssignmentRecord, notes: Option<string>, now: Time) returns (result: Result)
    modifies db`assignments
    ensures result == Saved(NotesEdited(a, notes, now))
    ensures db.assignments == AR.Save(old(db.assignments), result.row)
  {
    var assignment := new DeliveryAssignment.Load(a);
    assignment.notes := notes;
    assignment.updatedAt := Some(now);
    assignment.PreUpdate(now);
    result := SaveAssignment(db, assignment);
  }

  /** `deleteAssignment`: a cancellation with the administrator's reason. */
  method DeleteAssignment(db: Store, assignmentId: int, now: Time) returns (result: Result)
    modifies db`assignments
    ensures Outcome(db.assignments, result)
         == Transition(old(db.assignments), db.persons, assignmentId, Cancel(Some(DeletedByAdministrator)), now)
  {
    result := CancelAssignment(db, assignmentId, Some(DeletedByAdministrator), now);
  }
}
