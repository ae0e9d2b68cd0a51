/**
 * FarmAnimalController: the animal listing, single-animal create with the
 * three-animal capacity check, update (which may move the animal to another
 * farm), and delete. The acting user is the `actor` parameter; `index`,
 * `edit`, `update` and `destroy` reach an animal only through a farm the
 * actor owns, while `store` and `show` look rows up by id alone.
 */
module FarmAnimalController {
  import opened Input
  import opened Schema
  import opened Responses

  /** The most animals `store` and `update` let a farm reach. */
  const Capacity: nat := 3

  /** The body of a create or update request; `farmId` is `None` when null. */
  datatype AnimalRequest = AnimalRequest(
    animalNumber: Option<string>,
    typeName: Option<string>,
    years: Option<string>,
    farmId: Option<int>)

  /** `required|exists:farms,id`. */
  predicate FarmExists(farms: map<FarmId, Farm>, v: Option<int>) {
    v.Some? && v.value >= 0 && v.value as nat in farms
  }

  /** The animal exists and its farm belongs to the actor: `FarmAnimal::whereHas('farm', ...)`. */
  predicate OwnsAnimal(t: Tables, actor: UserId, id: AnimalId) {
    id in t.animals && t.animals[id].farmId in t.farms && t.farms[t.animals[id].farmId].owner == actor
  }

  /** No farm holds more than `Capacity` animals: a property the animal actions keep but do not establish. */
  predicate WithinCapacity(t: Tables) {
    forall f :: f in t.farms ==> AnimalCount(t.animals, f) <= Capacity
  }

  // ---------------------------------------------------------------- reads

  /** `index`: the animals whose farm the actor owns (pagination aside). */
  function Index(t: Tables, actor: UserId): (r: map<AnimalId, Animal>)
    ensures forall a :: a in r <==> OwnsAnimal(t, actor, a)
    ensures forall a :: a in r ==> a in t.animals && r[a] == t.animals[a]
  {
    map a | a in t.animals && t.animals[a].farmId in t.farms && t.farms[t.animals[a].farmId].owner == actor
      :: t.animals[a]
  }

  /** `show`: any animal by id with its farm, whoever owns it. */
  function Show(t: Tables, id: AnimalId): (r: Option<(Animal, Farm)>)
    requires ForeignKeysHold(t.farms, t.animals)
    ensures r.Some? <==> id in t.animals
    ensures r.Some? ==> r.value.0 == t.animals[id] && r.value.1 == t.farms[t.animals[id].farmId]
  {
    if id in t.animals then Some((t.animals[id], t.farms[t.animals[id].farmId])) else None
  }

  /** `edit`: the animal, found only through the actor's farms, with every farm as a destination. */
  function Edit(t: Tables, actor: UserId, id: AnimalId): (r: Option<(Animal, map<FarmId, Farm>)>)
    ensures r.Some? <==> OwnsAnimal(t, actor, id)
    ensures r.Some? ==> r.value.0 == t.animals[id] && r.value.1 == t.farms
  {
    if OwnsAnimal(t, actor, id) then Some((t.animals[id], t.farms)) else None
  }

  // ---------------------------------------------------------------- store

  /** The error bag of `store`'s validation. */
  function StoreErrors(t: Tables, req: AnimalRequest): (r: set<FieldKey>)
    ensures r <= {Key("animal_number"), Key("type_name"), Key("years"), Key("farm_id")}
    ensures r == {} <==>
      && IntegerGiven(req.animalNumber) && IntegerValue(req.animalNumber.value) >= 0
      && !NumberTaken(t.animals, req.animalNumber.value, None)
      && Filled(req.typeName) && AgeInRange(req.years) && FarmExists(t.farms, req.farmId)
  {
    (if IntegerGiven(req.animalNumber) && IntegerValue(req.animalNumber.value) >= 0
        && !NumberTaken(t.animals, req.animalNumber.value, None)
     then {} else {Key("animal_number")})
    + (if Filled(req.typeName) then {} else {Key("type_name")})
    + (if AgeInRange(req.years) then {} else {Key("years")})
    + (if FarmExists(t.farms, req.farmId) then {} else {Key("farm_id")})
  }

  /** The row a validated request describes; a null age stays null. */
  function RowOf(req: AnimalRequest): (row: Animal)
    requires Filled(req.animalNumber) && Filled(req.typeName) && NullableInteger(req.years)
    requires req.farmId.Some? && req.farmId.value >= 0
    ensures row.number == req.animalNumber.value && row.typeName == req.typeName.value
    ensures row.farmId == req.farmId.value && (row.years.None? <==> req.years.None?)
  {
    Animal(req.animalNumber.value, req.typeName.value, NullableValue(req.years), req.farmId.value as nat)
  }

  /**
   * `store`: validate, refuse a farm that already has `Capacity` animals,
   * then insert. The farm is not checked to be the actor's, so `actor`
   * has no bearing on the outcome.
   */
  method Store(db: Database, actor: UserId, req: AnimalRequest) returns (r: Response<AnimalId>)
    requires db.Valid() && db.Idle()
    modifies db
    ensures db.Valid() && db.Idle() && db.farms == old(db.farms)
    ensures r.Done? || r.Invalid?
    ensures !r.Done? ==> db.State() == old(db.State())
    ensures StoreErrors(old(db.State()), req) != {} ==> r == Invalid(StoreErrors(old(db.State()), req))
    ensures StoreErrors(old(db.State()), req) == {} ==>
      var farm := req.farmId.value as nat;
      && (AnimalCount(old(db.animals), farm) >= Capacity ==> r == Invalid({Key("farm_id")}))
      && (AnimalCount(old(db.animals), farm) < Capacity ==> r.Done?)
    ensures r.Done? ==>
      && StoreErrors(old(db.State()), req) == {}
      && r.value == old(db.nextAnimalId) && r.value !in old(db.animals)
      && db.animals == old(db.animals)[r.value := RowOf(req)]
      && db.nextAnimalId == r.value + 1
      && AnimalCount(db.animals, req.farmId.value as nat) == AnimalCount(old(db.animals), req.farmId.value as nat) + 1 <= Capacity
    ensures WithinCapacity(old(db.State())) ==> WithinCapacity(db.State())
  {
    var errors := StoreErrors(db.State(), req);
    if errors != {} {
      return Invalid(errors);
    }
    var farm := req.farmId.value as nat;
    if AnimalCount(db.animals, farm) >= Capacity {
      return Invalid({Key("farm_id")});
    }
    ghost var before := db.animals;
    var id, w := db.CreateAnimal(RowOf(req));
    assert w == Written;
    forall f | f in db.farms ensures AnimalCount(db.animals, f) == AnimalCount(before, f) + (if f == farm then 1 else 0) {
      CountAfterInsert(before, id, RowOf(req), f);
    }
    return Done(id);
  }

  // ---------------------------------------------------------------- update

  /** The error bag of `update`'s validation: the number need only be present and unused by other rows. */
  function UpdateErrors(t: Tables, id: AnimalId, req: AnimalRequest): (r: set<FieldKey>)
    ensures r <= {Key("animal_number"), Key("type_name"), Key("years"), Key("farm_id")}
    ensures r == {} <==>
      && Filled(req.animalNumber) && !NumberTaken(t.animals, req.animalNumber.value, Some(id))
      && Filled(req.typeName) && AgeInRange(req.years) && FarmExists(t.farms, req.farmId)
  {
    (if Filled(req.animalNumber) && !NumberTaken(t.animals, req.animalNumber.value, Some(id))
     then {} else {Key("animal_number")})
    + (if Filled(req.typeName) then {} else {Key("type_name")})
    + (if AgeInRange(req.years) then {} else {Key("years")})
    + (if FarmExists(t.farms, req.farmId) then {} else {Key("farm_id")})
  }

  /** A validated update names a farm other than the animal's current one. */
  predicate Moves(t: Tables, id: AnimalId, req: AnimalRequest)
    requires id in t.animals && req.farmId.Some?
  {
    t.animals[id].farmId != req.farmId.value
  }

  /**
   * `update`: validate, find the animal through the actor's farms, check
   * the destination's capacity only when the animal changes farm, then
   * overwrite every field of the row.
   */
  method Update(db: Database, actor: UserId, id: AnimalId, req: AnimalRequest) returns (r: Response<AnimalId>)
    requires db.Valid() && db.Idle()
    modifies db
    ensures db.Valid() && db.Idle() && db.farms == old(db.farms)
    ensures !r.Failed?
    ensures !r.Done? ==> db.State() == old(db.State())
    ensures UpdateErrors(old(db.State()), id, req) != {} ==> r == Invalid(UpdateErrors(old(db.State()), id, req))
    ensures r.NotFound? <==> UpdateErrors(old(db.State()), id, req) == {} && !OwnsAnimal(old(db.State()), actor, id)
    ensures UpdateErrors(old(db.State()), id, req) == {} && OwnsAnimal(old(db.State()), actor, id) ==>
      var dest := req.farmId.value as nat;
      && (Moves(old(db.State()), id, req) && AnimalCount(old(db.animals), dest) >= Capacity
          ==> r == Invalid({Key("farm_id")}))
      && (!Moves(old(db.State()), id, req) || AnimalCount(old(db.animals), dest) < Capacity ==> r.Done?)
    ensures r.Done? ==>
      && UpdateErrors(old(db.State()), id, req) == {} && OwnsAnimal(old(db.State()), actor, id)
      && r.value == id
      && db.animals == old(db.animals)[id := RowOf(req)]
      && db.nextAnimalId == old(db.nextAnimalId)
    ensures r.Done? && Moves(old(db.State()), id, req) ==>
      AnimalCount(db.animals, req.farmId.value as nat) == AnimalCount(old(db.animals), req.farmId.value as nat) + 1 <= Capacity
    ensures WithinCapacity(old(db.State())) ==> WithinCapacity(db.State())
  {
    var errors := UpdateErrors(db.State(), id, req);
    if errors != {} {
      return Invalid(errors);
    }
    if !(id in db.animals && db.animals[id].farmId in db.farms && db.farms[db.animals[id].farmId].owner == actor) {
      return NotFound;
    }
    var dest := req.farmId.value as nat;
    if db.animals[id].farmId != dest && AnimalCount(db.animals, dest) >= Capacity {
      return Invalid({Key("farm_id")});
    }
    ghost var before := db.animals;
    var w := db.SaveAnimal(id, RowOf(req));
    assert w == Written;
    forall f | f in db.farms
      ensures AnimalCount(db.animals, f)
           == AnimalCount(before, f) - (if before[id].farmId == f then 1 else 0) + (if dest == f then 1 else 0)
    {
      CountAfterSave(before, id, RowOf(req), f);
    }
    return Done(id);
  }

  // ---------------------------------------------------------------- destroy

  /** `destroy`: delete exactly the one row found through the actor's farms. */
  method Destroy(db: Database, actor: UserId, id: AnimalId) returns (r: Response<()>)
    requires db.Valid() && db.Idle()
    modifies db
    ensures db.Valid() && db.Idle() && db.farms == old(db.farms)
    ensures r.NotFound? <==> !OwnsAnimal(old(db.State()), actor, id)
    ensures r.Done? || r.NotFound?
    ensures r.NotFound? ==> db.State() == old(db.State())
    ensures r.Done? ==> db.animals == old(db.animals) - {id} && db.nextAnimalId == old(db.nextAnimalId)
    ensures WithinCapacity(old(db.State())) ==> WithinCapacity(db.State())
  {
    if !(id in db.animals && db.animals[id].farmId in db.farms && db.farms[db.animals[id].farmId].owner == actor) {
      return NotFound;
    }
    ghost var before := db.animals;
    db.DeleteAnimal(id);
    forall f | f in db.farms ensures AnimalCount(db.animals, f) <= AnimalCount(before, f) {
      CountAfterDelete(before, id, f);
    }
    return Done(());
  }
}
