/**
 * The two tables and the constraints the `farm_animals` migration puts on
 * them: `animal_number` is unique over the whole table, `type_name` is a
 * required string with no enumeration, `years` is a nullable integer, and
 * `farm_id` must name an existing farm, whose deletion cascades to its
 * animals. Class `Database` is the store the controllers write to; its
 * writes refuse what the constraints refuse (SQLSTATE 23000).
 */
module Schema {
  import opened Input

  type UserId = int
  type FarmId = nat
  type AnimalId = nat

  datatype Farm = Farm(name: string, email: string, website: Option<string>, owner: UserId)

  datatype Animal = Animal(number: string, typeName: string, years: Option<int>, farmId: FarmId)

  /** Every row of both tables, and the next id each auto-increment key hands out. */
  datatype Tables = Tables(
    farms: map<FarmId, Farm>,
    animals: map<AnimalId, Animal>,
    nextFarmId: nat,
    nextAnimalId: nat)

  /** The unique index on `animal_number`. */
  predicate NumbersUnique(animals: map<AnimalId, Animal>) {
    forall a, b :: a in animals && b in animals && a != b ==> animals[a].number != animals[b].number
  }

  /** The foreign key from `farm_id` to `farms.id`. */
  predicate ForeignKeysHold(farms: map<FarmId, Farm>, animals: map<AnimalId, Animal>) {
    forall a :: a in animals ==> animals[a].farmId in farms
  }

  predicate IdsIssued(t: Tables) {
    (forall f :: f in t.farms ==> f < t.nextFarmId) && (forall a :: a in t.animals ==> a < t.nextAnimalId)
  }

  predicate Consistent(t: Tables) {
    NumbersUnique(t.animals) && ForeignKeysHold(t.farms, t.animals) && IdsIssued(t)
  }

  /**
   * Some row other than `except` already holds `number`: the question both
   * the unique index and Laravel's `unique:farm_animals,animal_number[,id]`
   * rule ask.
   */
  predicate NumberTaken(animals: map<AnimalId, Animal>, number: string, except: Option<AnimalId>) {
    exists a :: a in animals && animals[a].number == number && Some(a) != except
  }

  /** Some farm other than `except` already uses `email` (`unique:farms,email[,id]`). */
  predicate EmailTaken(farms: map<FarmId, Farm>, email: string, except: Option<FarmId>) {
    exists f :: f in farms && farms[f].email == email && Some(f) != except
  }

  /** The animals whose `farm_id` is `farm`: `$farm->animals()`. */
  function AnimalsOf(animals: map<AnimalId, Animal>, farm: FarmId): (s: set<AnimalId>)
    ensures forall a :: a in s <==> a in animals && animals[a].farmId == farm
  {
    set a | a in animals && animals[a].farmId == farm
  }

  /** `$farm->animals()->count()`. */
  function AnimalCount(animals: map<AnimalId, Animal>, farm: FarmId): nat {
    |AnimalsOf(animals, farm)|
  }

  /** What the cascading foreign key leaves of the animal table when `farm` is deleted. */
  function WithoutFarm(animals: map<AnimalId, Animal>, farm: FarmId): (m: map<AnimalId, Animal>)
    ensures forall a :: a in m <==> a in animals && animals[a].farmId != farm
    ensures forall a :: a in m ==> m[a] == animals[a]
  {
    map a | a in animals && animals[a].farmId != farm :: animals[a]
  }

  /** Would inserting `row` satisfy the constraints? */
  predicate Insertable(farms: map<FarmId, Farm>, animals: map<AnimalId, Animal>, row: Animal) {
    row.farmId in farms && !NumberTaken(animals, row.number, None)
  }

  /** Would overwriting row `id` with `row` satisfy the constraints? */
  predicate Savable(farms: map<FarmId, Farm>, animals: map<AnimalId, Animal>, id: AnimalId, row: Animal) {
    row.farmId in farms && !NumberTaken(animals, row.number, Some(id))
  }

  /** Outcome of a write the database may refuse. */
  datatype WriteResult = Written | IntegrityViolation

  class Database {
    var farms: map<FarmId, Farm>
    var animals: map<AnimalId, Animal>
    var nextFarmId: nat
    var nextAnimalId: nat
    /** The state at `DB::beginTransaction()`, while a transaction is open. */
    var undo: Option<Tables>

    function State(): Tables
      reads this
    {
      Tables(farms, animals, nextFarmId, nextAnimalId)
    }

    ghost predicate Valid()
      reads this
    {
      Consistent(State()) && (undo.Some? ==> Consistent(undo.value))
    }

    /** No transaction is open. */
    predicate Idle()
      reads this
    {
      undo.None?
    }

    constructor ()
      ensures Valid() && Idle()
      ensures farms == map[] && animals == map[]
    {
      farms, animals := map[], map[];
      nextFarmId, nextAnimalId := 1, 1;
      undo := None;
    }

    method BeginTransaction()
      requires Valid() && Idle()
      modifies this
      ensures Valid() && State() == old(State()) && undo == Some(old(State()))
    {
      undo := Some(State());
    }

    method Commit()
      requires Valid()
      modifies this
      ensures Valid() && Idle() && State() == old(State())
    {
      undo := None;
    }

    method RollBack()
      requires Valid() && undo.Some?
      modifies this
      ensures Valid() && Idle() && State() == old(undo.value)
    {
      farms, animals := undo.value.farms, undo.value.animals;
      nextFarmId, nextAnimalId := undo.value.nextFarmId, undo.value.nextAnimalId;
      undo := None;
    }

    /** `Farm::create`: the farm table has no constraint the model can violate. */
    method CreateFarm(farm: Farm) returns (id: FarmId)
      requires Valid()
      modifies this
      ensures Valid() && undo == old(undo)
      ensures id == old(nextFarmId) && id !in old(farms)
      ensures farms == old(farms)[id := farm] && nextFarmId == id + 1
      ensures animals == old(animals) && nextAnimalId == old(nextAnimalId)
    {
      id := nextFarmId;
      farms := farms[id := farm];
      nextFarmId := nextFarmId + 1;
    }

    /** `$farm->save()` of an existing farm row. */
    method SaveFarm(id: FarmId, farm: Farm)
      requires Valid() && id in farms
      modifies this
      ensures Valid() && undo == old(undo)
      ensures farms == old(farms)[id := farm] && animals == old(animals)
      ensures nextFarmId == old(nextFarmId) && nextAnimalId == old(nextAnimalId)
    {
      farms := farms[id := farm];
    }

    /** `FarmAnimal::create`: refused when the number is taken or the farm is missing. */
    method CreateAnimal(row: Animal) returns (id: AnimalId, w: WriteResult)
      requires Valid()
      modifies this
      ensures Valid() && undo == old(undo)
      ensures w == Written <==> Insertable(old(farms), old(animals), row)
      ensures id == old(nextAnimalId) && id !in old(animals)
      ensures w == Written ==> animals == old(animals)[id := row] && nextAnimalId == id + 1
      ensures w == IntegrityViolation ==> animals == old(animals) && nextAnimalId == old(nextAnimalId)
      ensures farms == old(farms) && nextFarmId == old(nextFarmId)
    {
      id := nextAnimalId;
      if Insertable(farms, animals, row) {
        animals := animals[id := row];
        nextAnimalId := nextAnimalId + 1;
        w := Written;
      } else {
        w := IntegrityViolation;
      }
    }

    /** `$animal->save()` / `$animal->update(...)` of an existing animal row. */
    method SaveAnimal(id: AnimalId, row: Animal) returns (w: WriteResult)
      requires Valid() && id in animals
      modifies this
      ensures Valid() && undo == old(undo)
      ensures w == Written <==> Savable(old(farms), old(animals), id, row)
      ensures w == Written ==> animals == old(animals)[id := row]
      ensures w == IntegrityViolation ==> animals == old(animals)
      ensures farms == old(farms) && nextFarmId == old(nextFarmId) && nextAnimalId == old(nextAnimalId)
    {
      if Savable(farms, animals, id, row) {
        animals := animals[id := row];
        w := Written;
      } else {
        w := IntegrityViolation;
      }
    }

    /** `$farm->delete()`; the foreign key's `onDelete('cascade')` removes the farm's animals. */
    method DeleteFarm(id: FarmId)
      requires Valid() && id in farms
      modifies this
      ensures Valid() && undo == old(undo)
      ensures farms == old(farms) - {id} && animals == WithoutFarm(old(animals), id)
      ensures nextFarmId == old(nextFarmId) && nextAnimalId == old(nextAnimalId)
    {
      farms := farms - {id};
      animals := WithoutFarm(animals, id);
    }

    /** `$animal->delete()`. */
    method DeleteAnimal(id: AnimalId)
      requires Valid() && id in animals
      modifies this
      ensures Valid() && undo == old(undo)
      ensures animals == old(animals) - {id} && farms == old(farms)
      ensures nextFarmId == old(nextFarmId) && nextAnimalId == old(nextAnimalId)
    {
      animals := animals - {id};
    }
  }

  /** After a farm is deleted no animal refers to it, and every other animal is kept. */
  lemma CascadeLeavesNoOrphans(t: Tables, farm: FarmId)
    requires Consistent(t) && farm in t.farms
    ensures Consistent(Tables(t.farms - {farm}, WithoutFarm(t.animals, farm), t.nextFarmId, t.nextAnimalId))
    ensures AnimalCount(WithoutFarm(t.animals, farm), farm) == 0
    ensures forall a :: a in t.animals && t.animals[a].farmId != farm ==> a in WithoutFarm(t.animals, farm)
  {
    assert AnimalsOf(WithoutFarm(t.animals, farm), farm) == {};
  }

  /** Inserting a row under a fresh id adds exactly one animal to that row's farm and none to any other. */
  lemma {:induction false} CountAfterInsert(animals: map<AnimalId, Animal>, id: AnimalId, row: Animal, farm: FarmId)
    requires id !in animals
    ensures AnimalCount(animals[id := row], farm) == AnimalCount(animals, farm) + (if row.farmId == farm then 1 else 0)
  {
    if row.farmId == farm {
      assert AnimalsOf(animals[id := row], farm) == AnimalsOf(animals, farm) + {id};
    } else {
      assert AnimalsOf(animals[id := row], farm) == AnimalsOf(animals, farm);
    }
  }

  /** Overwriting an existing row moves it from its old farm's count to its new farm's count. */
  lemma {:induction false} CountAfterSave(animals: map<AnimalId, Animal>, id: AnimalId, row: Animal, farm: FarmId)
    requires id in animals
    ensures AnimalCount(animals[id := row], farm)
         == AnimalCount(animals, farm)
            - (if animals[id].farmId == farm then 1 else 0)
            + (if row.farmId == farm then 1 else 0)
  {
    var rest := animals - {id};
    assert animals == rest[id := animals[id]];
    assert animals[id := row] == rest[id := row];
    CountAfterInsert(rest, id, animals[id], farm);
    CountAfterInsert(rest, id, row, farm);
  }

  /** Deleting a row removes it from its own farm's count and leaves every other count alone. */
  lemma {:induction false} CountAfterDelete(animals: map<AnimalId, Animal>, id: AnimalId, farm: FarmId)
    requires id in animals
    ensures AnimalCount(animals - {id}, farm) == AnimalCount(animals, farm) - (if animals[id].farmId == farm then 1 else 0)
  {
    var rest := animals - {id};
    assert animals == rest[id := animals[id]];
    CountAfterInsert(rest, id, animals[id], farm);
  }
}
