/** The `delivery_persons` table's queries (`DeliverPersonRepository`). */
module PersonRepository {
  import opened Wrappers
  import opened Seqs
  import opened JavaText
  import opened SqlLike
  import opened DeliveryPersons

  /** The table's key. */
  function PersonKey(p: PersonRecord): int
  {
    p.id
  }

  /** `findById`. */
  function FindById(ps: seq<PersonRecord>, id: int): Option<PersonRecord>
  {
    FindByKey(ps, PersonKey, id)
  }

  /** `existsById`. */
  predicate ExistsById(ps: seq<PersonRecord>, id: int)
  {
    exists k :: 0 <= k < |ps| && ps[k].id == id
  }

  /** `existsById` holds exactly when `findById` finds a row. */
  lemma ExistsIffFound(ps: seq<PersonRecord>, id: int)
    ensures ExistsById(ps, id) <==> FindById(ps, id).Some?
  {
    if FindById(ps, id).Some? {
      var k :| 0 <= k < |ps| && ps[k] == FindById(ps, id).value;
    }
  }

  /** `save` of a person that is already stored. */
  function Save(ps: seq<PersonRecord>, p: PersonRecord): seq<PersonRecord>
  {
    SaveByKey(ps, PersonKey, p)
  }

  /** `deleteById`. */
  function DeleteById(ps: seq<PersonRecord>, id: int): seq<PersonRecord>
  {
    DeleteByKey(ps, PersonKey, id)
  }

  /** `findByEmail`. */
  function FindByEmail(ps: seq<PersonRecord>, email: string): Option<PersonRecord>
  {
    FindFirst(ps, (p: PersonRecord) => p.email == email)
  }

  /** `findByVehicleNumber`. */
  function FindByVehicleNumber(ps: seq<PersonRecord>, vehicleNumber: string): Option<PersonRecord>
  {
    FindFirst(ps, (p: PersonRecord) => p.vehicleNumber == vehicleNumber)
  }

  /** `findByIsActiveTrue`. */
  function FindByIsActiveTrue(ps: seq<PersonRecord>): (r: seq<PersonRecord>)
    ensures forall p :: p in r <==> p in ps && p.isActive
  {
    Filter(ps, (p: PersonRecord) => p.isActive)
  }

  /** `findByIsDeletedFalse`. */
  function FindByIsDeletedFalse(ps: seq<PersonRecord>): (r: seq<PersonRecord>)
    ensures forall p :: p in r <==> p in ps && !p.isDeleted
  {
    Filter(ps, (p: PersonRecord) => !p.isDeleted)
  }

  /** `findByIsActiveTrueAndIsDeletedFalse`: the couriers that may take deliveries. */
  function FindByIsActiveTrueAndIsDeletedFalse(ps: seq<PersonRecord>): (r: seq<PersonRecord>)
    ensures forall p :: p in r <==> p in ps && p.isActive && !p.isDeleted
  {
    Filter(ps, Available)
  }

  /**
   * The available couriers are the active ones with the deleted ones taken out, and also the
   * non-deleted ones with the inactive ones taken out; so they are contained in both lists,
   * in the table's order.
   */
  lemma {:induction false} AvailableIsBothFilters(ps: seq<PersonRecord>)
    ensures FindByIsActiveTrueAndIsDeletedFalse(ps) == Filter(FindByIsActiveTrue(ps), (p: PersonRecord) => !p.isDeleted)
    ensures FindByIsActiveTrueAndIsDeletedFalse(ps) == Filter(FindByIsDeletedFalse(ps), (p: PersonRecord) => p.isActive)
    ensures IsSubsequence(FindByIsActiveTrueAndIsDeletedFalse(ps), FindByIsActiveTrue(ps))
    ensures IsSubsequence(FindByIsActiveTrueAndIsDeletedFalse(ps), FindByIsDeletedFalse(ps))
  {
    FilterOfFilter(ps, (p: PersonRecord) => p.isActive, (p: PersonRecord) => !p.isDeleted, Available);
    FilterOfFilter(ps, (p: PersonRecord) => !p.isDeleted, (p: PersonRecord) => p.isActive, Available);
  }

  /** `findByVehicleTypeAndIsDeletedFalse`. */
  function FindByVehicleTypeAndIsDeletedFalse(ps: seq<PersonRecord>, vehicleType: VehicleType): (r: seq<PersonRecord>)
    ensures forall p :: p in r <==> p in ps && p.vehicleType == vehicleType && !p.isDeleted
  {
    Filter(ps, (p: PersonRecord) => p.vehicleType == vehicleType && !p.isDeleted)
  }

  /**
   * `searchByName`: `name LIKE %term%` among the couriers that are not deleted; the term is not
   * escaped, so a plain term is a substring search and `%`, `_` and `\` are wildcards and escape.
   */
  function SearchByName(ps: seq<PersonRecord>, term: string): (r: seq<PersonRecord>)
    ensures forall p :: p in r <==> p in ps && !p.isDeleted && LikeMatch(p.name, ContainingPattern(term))
    ensures IsPlain(term) ==> forall p :: p in r <==> p in ps && !p.isDeleted && exists i :: OccursAt(p.name, term, i)
  {
    forall p | IsPlain(term) && p in ps
      ensures LikeMatch(p.name, ContainingPattern(term)) <==> exists i :: OccursAt(p.name, term, i)
    {
      PlainTermLikeIsContains(p.name, term);
      ContainsIff(p.name, term);
    }
    Filter(ps, (p: PersonRecord) => !p.isDeleted && LikeMatch(p.name, ContainingPattern(term)))
  }
}
