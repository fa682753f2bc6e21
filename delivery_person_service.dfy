/**
 * `DeliveryPersonService`: registers couriers, edits them, and retires them either softly (a
 * flag that hides them from the listings) or for good (the row is deleted).
 */
module PersonService {
  import opened Wrappers
  import opened DeliveryPersons
  import opened Database
  import PR = PersonRepository
  import Seqs

  /** The changes the service makes to one stored courier. */
  datatype Edit =
    | Update(name: string, email: string, contactNumber: string, vehicleType: VehicleType,
             vehicleNumber: string, isActive: bool)
    | SoftDelete
    | Activate
    | Deactivate

  /** The row an edit saves: the edited fields, restamped `now`. */
  function Edited(p: PersonRecord, edit: Edit, now: Time): PersonRecord
  {
    match edit
    case Update(name, email, contactNumber, vehicleType, vehicleNumber, isActive) =>
      p.(name := name, email := email, contactNumber := contactNumber, vehicleType := vehicleType,
         vehicleNumber := vehicleNumber, isActive := isActive, updatedAt := now)
    case SoftDelete => p.(isDeleted := true, updatedAt := now)
    case Activate => p.(isActive := true, updatedAt := now)
    case Deactivate => p.(isActive := false, updatedAt := now)
  }

  /**
   * Whether `save` accepts the row `r`: the entity passes Bean Validation and no other stored
   * courier has its e-mail (the unique column).
   */
  predicate Storable(persons: seq<PersonRecord>, r: PersonRecord)
  {
    && PersonConstraints(r.name, r.email, r.contactNumber, r.vehicleNumber)
    && forall k :: 0 <= k < |persons| && persons[k].id != r.id ==> persons[k].email != r.email
  }

  /** No stored courier has the e-mail. */
  predicate EmailFree(persons: seq<PersonRecord>, email: string)
  {
    forall k :: 0 <= k < |persons| ==> persons[k].email != email
  }

  /** What an edit of the courier with key `id` comes to; `Rejected` is the exception `save` throws. */
  datatype Outcome = Done(saved: PersonRecord) | NotFound | Rejected

  function EditOutcome(persons: seq<PersonRecord>, id: int, edit: Edit, now: Time): Outcome
  {
    match PR.FindById(persons, id)
    case None => NotFound
    case Some(p) => if Storable(persons, Edited(p, edit, now)) then Done(Edited(p, edit, now)) else Rejected
  }

  /** The couriers table after an edit; an unknown key or a rejected row changes nothing. */
  function EditedTable(persons: seq<PersonRecord>, id: int, edit: Edit, now: Time): seq<PersonRecord>
  {
    match EditOutcome(persons, id, edit, now)
    case Done(r) => PR.Save(persons, r)
    case _ => persons
  }

  /** The row `createDeliveryPerson` saves under key `id`: the form's fields, stamped `now`, active, not deleted. */
  function CreatedRow(id: int, name: string, email: string, contactNumber: string, vehicleType: VehicleType,
                      vehicleNumber: string, now: Time): PersonRecord
  {
    PersonRecord(id, name, email, contactNumber, vehicleType, vehicleNumber, now, now, true, false)
  }

  /** Whether `save` merges a posted courier with this key onto a stored row instead of inserting it. */
  predicate Merges(persons: seq<PersonRecord>, id: Option<int>)
  {
    id.Some? && PR.FindById(persons, id.value).Some?
  }

  // ---------------------------------------------------------------------------------------------
  // What the edits promise

  /**
   * An edit changes only the courier it names: when it is done, the key finds the edited row,
   * every other key what it found before, and the table keeps its size; an unknown key or a
   * rejected row leaves the table as it was.
   */
  lemma EditChangesOneRow(persons: seq<PersonRecord>, id: int, edit: Edit, now: Time, other: int)
    requires other != id
    ensures EditOutcome(persons, id, edit, now).NotFound? <==> PR.FindById(persons, id).None?
    ensures !EditOutcome(persons, id, edit, now).Done? ==> EditedTable(persons, id, edit, now) == persons
    ensures EditOutcome(persons, id, edit, now).Done? ==>
      && EditOutcome(persons, id, edit, now).saved == Edited(PR.FindById(persons, id).value, edit, now)
      && PR.FindById(EditedTable(persons, id, edit, now), id) == Some(EditOutcome(persons, id, edit, now).saved)
    ensures PR.FindById(EditedTable(persons, id, edit, now), other) == PR.FindById(persons, other)
    ensures |EditedTable(persons, id, edit, now)| == |persons|
  {
    if EditOutcome(persons, id, edit, now).Done? {
      var p := PR.FindById(persons, id).value;
      Seqs.FindAfterSave(persons, PR.PersonKey, Edited(p, edit, now), id);
      Seqs.FindAfterSave(persons, PR.PersonKey, Edited(p, edit, now), other);
    }
  }

  /**
   * The flag edits touch none of the validated fields, so a stored courier that `save` accepted
   * is accepted again: soft-deleting, activating or deactivating a known courier always succeeds.
   */
  lemma FlagEditsAreAccepted(persons: seq<PersonRecord>, id: int, edit: Edit, now: Time)
    requires !edit.Update?
    requires PR.FindById(persons, id).Some? && Storable(persons, PR.FindById(persons, id).value)
    ensures EditOutcome(persons, id, edit, now) == Done(Edited(PR.FindById(persons, id).value, edit, now))
  {
  }

  /**
   * `updateDeliveryPerson` copies every editable field but never the deleted flag, so a
   * soft-deleted courier stays deleted whatever the form says; the key and creation time stay too.
   */
  lemma UpdateKeepsDeletedFlag(p: PersonRecord, edit: Edit, now: Time)
    requires edit.Update?
    ensures Edited(p, edit, now).isDeleted == p.isDeleted
    ensures Edited(p, edit, now).id == p.id && Edited(p, edit, now).createdAt == p.createdAt
    ensures Edited(p, edit, now).isActive == edit.isActive && Edited(p, edit, now).name == edit.name
  {
  }

  /** Activating and deactivating set only the active flag (and the timestamp). */
  lemma ActivationSetsOnlyTheFlag(p: PersonRecord, edit: Edit, now: Time)
    requires edit.Activate? || edit.Deactivate?
    ensures Edited(p, edit, now) == p.(isActive := edit.Activate?, updatedAt := now)
  {
  }

  /**
   * A soft-deleted courier keeps its row, can still be looked up by key, but disappears from the
   * listings and can no longer take deliveries.
   */
  lemma SoftDeleteHidesCourier(persons: seq<PersonRecord>, id: int, now: Time)
    requires PR.FindById(persons, id).Some? && Storable(persons, PR.FindById(persons, id).value)
    ensures var after := EditedTable(persons, id, SoftDelete, now);
      && |after| == |persons|
      && PR.FindById(after, id).Some? && PR.FindById(after, id).value.isDeleted
      && !Available(PR.FindById(after, id).value)
      && (forall q :: q in PR.FindByIsDeletedFalse(after) ==> q.id != id)
  {
    var p := PR.FindById(persons, id).value;
    FlagEditsAreAccepted(persons, id, SoftDelete, now);
    var after := PR.Save(persons, Edited(p, SoftDelete, now));
    assert EditedTable(persons, id, SoftDelete, now) == after;
    EditChangesOneRow(persons, id, SoftDelete, now, id + 1);
    SavedDeletedRowUnlisted(persons, Edited(p, SoftDelete, now));
  }

  /** Saving a deleted row leaves no row with its key among the non-deleted listing. */
  lemma SavedDeletedRowUnlisted(persons: seq<PersonRecord>, r: PersonRecord)
    requires r.isDeleted
    ensures forall q :: q in PR.FindByIsDeletedFalse(PR.Save(persons, r)) ==> q.id != r.id
  {
    var after := PR.Save(persons, r);
    forall q | q in PR.FindByIsDeletedFalse(after)
      ensures q.id != r.id
    {
      var k :| 0 <= k < |after| && after[k] == q;
    }
  }

  /** Only the hard delete removes a row: the key then finds nothing and every other key what it did. */
  lemma HardDeleteRemovesRow(persons: seq<PersonRecord>, id: int, other: int)
    requires other != id
    ensures PR.FindById(PR.DeleteById(persons, id), id).None?
    ensures PR.FindById(PR.DeleteById(persons, id), other) == PR.FindById(persons, other)
  {
    Seqs.FindAfterDelete(persons, PR.PersonKey, id, id);
    Seqs.FindAfterDelete(persons, PR.PersonKey, id, other);
  }

  /**
   * Registering a body that carries a soft-deleted courier's key revives that courier: the row
   * under the key is replaced by an available one, no row is added, and every other key finds
   * what it found before.
   */
  lemma CreateWithStoredKeyRevivesCourier(persons: seq<PersonRecord>, id: int, name: string, email: string,
                                          contactNumber: string, vehicleType: VehicleType, vehicleNumber: string,
                                          now: Time, other: int)
    requires PR.FindById(persons, id).Some? && PR.FindById(persons, id).value.isDeleted
    requires Storable(persons, CreatedRow(id, name, email, contactNumber, vehicleType, vehicleNumber, now))
    requires other != id
    ensures var after := PR.Save(persons, CreatedRow(id, name, email, contactNumber, vehicleType, vehicleNumber, now));
      && |after| == |persons|
      && PR.FindById(after, id).Some? && Available(PR.FindById(after, id).value)
      && PR.FindById(after, id).value.createdAt == now
      && PR.FindById(after, other) == PR.FindById(persons, other)
  {
    var row := CreatedRow(id, name, email, contactNumber, vehicleType, vehicleNumber, now);
    Seqs.FindAfterSave(persons, PR.PersonKey, row, id);
    Seqs.FindAfterSave(persons, PR.PersonKey, row, other);
  }

  // ---------------------------------------------------------------------------------------------
  // The service methods

  /**
   * `createDeliveryPerson`: whatever the flags the form carried, the courier is saved active and
   * not deleted, stamped `now`. A body without a key, or with a key no row has, is inserted under
   * a fresh key; a body carrying a stored courier's key is merged onto that row, overwriting it.
   * `None` is the exception `save` throws for an invalid entity or a taken e-mail.
   */
  method CreateDeliveryPerson(db: Store, person: DeliveryPerson, now: Time) returns (saved: Option<PersonRecord>)
    modifies person, db`persons, db`nextId
    ensures Merges(old(db.persons), old(person.id)) ==>
      var row := CreatedRow(old(person.id).value, old(person.name), old(person.email), old(person.contactNumber),
                            old(person.vehicleType), old(person.vehicleNumber), now);
      && (saved.Some? <==> Storable(old(db.persons), row))
      && (saved.Some? ==> saved.value == row)
      && db.persons == (if saved.Some? then PR.Save(old(db.persons), row) else old(db.persons))
      && db.nextId == old(db.nextId)
    ensures !Merges(old(db.persons), old(person.id)) ==>
      && (saved.Some? <==>
           && PersonConstraints(old(person.name), old(person.email), old(person.contactNumber), old(person.vehicleNumber))
           && EmailFree(old(db.persons), old(person.email)))
      && (saved.Some? ==>
           && saved.value == CreatedRow(old(db.nextId), old(person.name), old(person.email), old(person.contactNumber),
                                        old(person.vehicleType), old(person.vehicleNumber), now)
           && db.persons == old(db.persons) + [saved.value] && db.nextId == old(db.nextId) + 1)
      && (saved.None? ==> db.persons == old(db.persons) && db.nextId == old(db.nextId))
    ensures saved.Some? ==> Available(saved.value)
  {
    var postedId, name, email, contactNumber, vehicleType, vehicleNumber :=
      person.id, person.name, person.email, person.contactNumber, person.vehicleType, person.vehicleNumber;
    person.createdAt := now;
    person.updatedAt := now;
    person.isActive := true;
    person.isDeleted := false;
    if postedId.Some? && PR.FindById(db.persons, postedId.value).Some? {
      // `save` merges: the `@PreUpdate` callback restamps the row, which is already stamped `now`
      person.PreUpdate(now);
      var row := CreatedRow(postedId.value, name, email, contactNumber, vehicleType, vehicleNumber, now);
      assert person.Record() == row;
      var accepted := SavePerson(db, person);
      return if accepted then Some(row) else None;
    }
    // Bean Validation and the unique e-mail column, checked by `save`
    var accepted := PersonConstraints(name, email, contactNumber, vehicleNumber) && EmailFree(db.persons, email);
    if !accepted {
      return None;
    }
    var key := db.NewKey();
    person.id := Some(key);
    // the row `save` inserts, as `person.Record()` would read it
    saved := Some(CreatedRow(key, name, email, contactNumber, vehicleType, vehicleNumber, now));
    db.persons := db.persons + [saved.value];
  }

  /** `deliverPersonRepository.save` of a courier that is already stored, when it accepts the row. */
  method SavePerson(db: Store, person: DeliveryPerson) returns (accepted: bool)
    requires person.id.Some?
    modifies db`persons
    ensures accepted == Storable(old(db.persons), person.Record())
    ensures db.persons == if accepted then PR.Save(old(db.persons), person.Record()) else old(db.persons)
  {
    var row := person.Record();
    accepted := person.Valid() && forall k :: 0 <= k < |db.persons| && db.persons[k].id != row.id ==> db.persons[k].email != row.email;
    if accepted {
      db.persons := PR.Save(db.persons, row);
    }
  }

  /** The setters and the save of an edit of the stored courier `p`. */
  method EditRow(db: Store, p: PersonRecord, edit: Edit, now: Time) returns (accepted: bool)
    modifies db`persons
    ensures accepted == Storable(old(db.persons), Edited(p, edit, now))
    ensures db.persons == if accepted then PR.Save(old(db.persons), Edited(p, edit, now)) else old(db.persons)
  {
    var person := new DeliveryPerson.Load(p);
    match edit {
      case Update(name, email, contactNumber, vehicleType, vehicleNumber, isActive) =>
        person.name := name;
        person.email := email;
        person.contactNumber := contactNumber;
        person.vehicleType := vehicleType;
        person.vehicleNumber := vehicleNumber;
        person.isActive := isActive;
      case SoftDelete =>
        person.isDeleted := true;
      case Activate =>
        person.isActive := true;
      case Deactivate =>
        person.isActive := false;
    }
    person.updatedAt := now;
    person.PreUpdate(now);
    assert person.Record() == Edited(p, edit, now);
    accepted := SavePerson(db, person);
  }

  /** The edit methods: load by key, edit, save. */
  method ApplyEdit(db: Store, id: int, edit: Edit, now: Time) returns (outcome: Outcome)
    modifies db`persons
    ensures outcome == EditOutcome(old(db.persons), id, edit, now)
    ensures db.persons == EditedTable(old(db.persons), id, edit, now)
  {
    var row := PR.FindById(db.persons, id);
    if row.None? {
      return NotFound;
    }
    var accepted := EditRow(db, row.value, edit, now);
    outcome := if accepted then Done(Edited(row.value, edit, now)) else Rejected;
  }

  /** `updateDeliveryPerson`: the saved courier, `null` (here `NotFound`) for an unknown key. */
  method UpdateDeliveryPerson(db: Store, id: int, name: string, email: string, contactNumber: string,
                              vehicleType: VehicleType, vehicleNumber: string, isActive: bool, now: Time)
    returns (outcome: Outcome)
    modifies db`persons
    ensures outcome == EditOutcome(old(db.persons), id, Update(name, email, contactNumber, vehicleType, vehicleNumber, isActive), now)
    ensures db.persons == EditedTable(old(db.persons), id, Update(name, email, contactNumber, vehicleType, vehicleNumber, isActive), now)
  {
    outcome := ApplyEdit(db, id, Update(name, email, contactNumber, vehicleType, vehicleNumber, isActive), now);
  }

  /** `softDeleteDeliveryPerson`: `true` is `Done`, `false` is `NotFound`. */
  method SoftDeleteDeliveryPerson(db: Store, id: int, now: Time) returns (outcome: Outcome)
    modifies db`persons
    ensures outcome == EditOutcome(old(db.persons), id, SoftDelete, now)
    ensures db.persons == EditedTable(old(db.persons), id, SoftDelete, now)
  {
    outcome := ApplyEdit(db, id, SoftDelete, now);
  }

  /** `activateDeliveryPerson`. */
  method ActivateDeliveryPerson(db: Store, id: int, now: Time) returns (outcome: Outcome)
    modifies db`persons
    ensures outcome == EditOutcome(old(db.persons), id, Activate, now)
    ensures db.persons == EditedTable(old(db.persons), id, Activate, now)
  {
    outcome := ApplyEdit(db, id, Activate, now);
  }

  /** `deactivateDeliveryPerson`. */
  method DeactivateDeliveryPerson(db: Store, id: int, now: Time) returns (outcome: Outcome)
    modifies db`persons
    ensures outcome == EditOutcome(old(db.persons), id, Deactivate, now)
    ensures db.persons == EditedTable(old(db.persons), id, Deactivate, now)
  {
    outcome := ApplyEdit(db, id, Deactivate, now);
  }

  /** `hardDeleteDeliveryPerson`: deletes the row when `existsById` holds, and says whether it did. */
  method HardDeleteDeliveryPerson(db: Store, id: int) returns (found: bool)
    modifies db`persons
    ensures found <==> PR.ExistsById(old(db.persons), id)
    ensures db.persons == if found then PR.DeleteById(old(db.persons), id) else old(db.persons)
  {
    found := PR.ExistsById(db.persons, id);
    if found {
      db.persons := PR.DeleteById(db.persons, id);
    }
  }
}
