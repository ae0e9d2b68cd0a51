/**
 * FarmController: farm listing, the farm-with-animals create and update
 * (each one database transaction), and farm deletion. The acting user is
 * the `actor` parameter; only `index`, `edit`, `update` and `destroy`
 * scope their lookups to farms the actor owns.
 */
module FarmController {
  import opened Input
  import opened Schema
  import opened Responses

  /** A nested list in a request body: the key may be missing, null, or an array. */
  datatype ListField<T> = Absent | Null | Given(items: seq<T>)

  /** One element of `animals` in a create request. */
  datatype AnimalInput = AnimalInput(animalNumber: Option<string>, typeName: Option<string>, years: Option<string>)

  datatype StoreRequest = StoreRequest(
    name: Option<string>,
    website: Option<string>,
    email: Option<string>,
    animals: ListField<AnimalInput>)

  /** One element of `animals` in an update request; `id` is absent for a new animal. */
  datatype AnimalPatch = AnimalPatch(id: Option<int>, animalNumber: Option<string>, typeName: Option<string>, years: Option<string>)

  datatype UpdateRequest = UpdateRequest(
    name: Option<string>,
    website: Option<string>,
    email: Option<string>,
    animals: ListField<AnimalPatch>)

  /** No two farms share an e-mail address: kept by the `unique:farms,email` rules. */
  predicate EmailsUnique(farms: map<FarmId, Farm>) {
    forall f, g :: f in farms && g in farms && f != g ==> farms[f].email != farms[g].email
  }

  /** The ownership scope `Farm::where('user_id', Auth::id())`. */
  predicate Owns(farms: map<FarmId, Farm>, actor: UserId, id: FarmId) {
    id in farms && farms[id].owner == actor
  }

  // ---------------------------------------------------------------- reads

  /** `index`: the actor's farms, and only those (pagination aside). */
  function Index(t: Tables, actor: UserId): (r: map<FarmId, Farm>)
    ensures forall f :: f in r <==> Owns(t.farms, actor, f)
    ensures forall f :: f in r ==> f in t.farms && r[f] == t.farms[f]
  {
    map f | f in t.farms && t.farms[f].owner == actor :: t.farms[f]
  }

  /** `show`: any farm by id with its animals, whoever owns it. */
  function Show(t: Tables, id: FarmId): (r: Option<(Farm, set<AnimalId>)>)
    ensures r.Some? <==> id in t.farms
    ensures r.Some? ==> r.value.0 == t.farms[id] && r.value.1 == AnimalsOf(t.animals, id)
  {
    if id in t.farms then Some((t.farms[id], AnimalsOf(t.animals, id))) else None
  }

  /** `edit`: the farm with its animals, found only among the actor's farms. */
  function Edit(t: Tables, actor: UserId, id: FarmId): (r: Option<(Farm, set<AnimalId>)>)
    ensures r.Some? <==> Owns(t.farms, actor, id)
    ensures r.Some? ==> r == Show(t, id)
  {
    if Owns(t.farms, actor, id) then Show(t, id) else None
  }

  // ---------------------------------------------------------------- store

  /** The three rules every element of `animals` must pass in `store`. */
  predicate InputValid(e: AnimalInput) {
    IntegerGiven(e.animalNumber) && Filled(e.typeName) && AgeInRange(e.years)
  }

  /** The `animals.*` keys that fail `required|integer`, `required|string` and `nullable|integer|min:0|max:20`. */
  function InputErrors(batch: seq<AnimalInput>): set<FieldKey> {
    (set i | 0 <= i < |batch| && !IntegerGiven(batch[i].animalNumber) :: EntryKey(i, "animal_number"))
    + (set i | 0 <= i < |batch| && !Filled(batch[i].typeName) :: EntryKey(i, "type_name"))
    + (set i | 0 <= i < |batch| && !AgeInRange(batch[i].years) :: EntryKey(i, "years"))
  }

  /** The error bag of `store`'s validation; the batch length is not limited. */
  function StoreErrors(farms: map<FarmId, Farm>, rules: Rules, req: StoreRequest): (r: set<FieldKey>)
    ensures r == {} <==>
      && Filled(req.name) && NullableUrl(rules, req.website)
      && Filled(req.email) && rules.isEmail(req.email.value) && !EmailTaken(farms, req.email.value, None)
      && (req.animals.Given? ==> forall i :: 0 <= i < |req.animals.items| ==> InputValid(req.animals.items[i]))
  {
    assert req.animals.Given? ==>
      (InputErrors(req.animals.items) == {} <==> forall i :: 0 <= i < |req.animals.items| ==> InputValid(req.animals.items[i]))
    by {
      if req.animals.Given? {
        InputErrorsEmptyIff(req.animals.items);
      }
    }
    (if Filled(req.name) then {} else {Key("name")})
    + (if NullableUrl(rules, req.website) then {} else {Key("website")})
    + (if Filled(req.email) && rules.isEmail(req.email.value) && !EmailTaken(farms, req.email.value, None)
       then {} else {Key("email")})
    + (if req.animals.Given? then InputErrors(req.animals.items) else {})
  }

  /** The farm row `store` creates: owned by the actor. */
  function NewFarm(actor: UserId, req: StoreRequest): (f: Farm)
    requires Filled(req.name) && Filled(req.email)
    ensures f.owner == actor && f.name == req.name.value && f.email == req.email.value && f.website == req.website
  {
    Farm(req.name.value, req.email.value, req.website, actor)
  }

  predicate BatchValid(batch: seq<AnimalInput>) {
    forall i :: 0 <= i < |batch| ==> InputValid(batch[i])
  }

  /** The row `store` inserts for one validated element: a null age stays null. */
  function Row(farm: FarmId, e: AnimalInput): (row: Animal)
    requires InputValid(e)
    ensures row.farmId == farm && row.number == e.animalNumber.value && row.typeName == e.typeName.value
    ensures row.years.None? <==> e.years.None?
  {
    Animal(e.animalNumber.value, e.typeName.value, NullableValue(e.years), farm)
  }

  /** The animal rows `store` inserts for a validated batch, all under `farm`. */
  function Rows(farm: FarmId, batch: seq<AnimalInput>): (rows: seq<Animal>)
    requires BatchValid(batch)
    ensures |rows| == |batch|
    ensures forall i :: 0 <= i < |batch| ==> rows[i] == Row(farm, batch[i])
  {
    seq(|batch|, i requires 0 <= i < |batch| => Row(farm, batch[i]))
  }

  /**
   * The `foreach` of `store`: insert the rows in order under ids `next`,
   * `next + 1`, ...; `None` when a write is refused, which aborts the loop.
   */
  function InsertBatch(farms: map<FarmId, Farm>, animals: map<AnimalId, Animal>, next: nat, rows: seq<Animal>)
    : (r: Option<(map<AnimalId, Animal>, nat)>)
    ensures r.Some? ==> next <= r.value.1 && forall i :: 0 <= i < |rows| ==> rows[i].farmId in farms
    decreases |rows|
  {
    if rows == [] then Some((animals, next))
    else if Insertable(farms, animals, rows[0]) then InsertBatch(farms, animals[next := rows[0]], next + 1, rows[1..])
    else None
  }

  /** One step of `InsertBatch`: the first row is inserted under `next`, or the batch is refused. */
  lemma InsertBatchStep(farms: map<FarmId, Farm>, animals: map<AnimalId, Animal>, next: nat, rows: seq<Animal>)
    requires rows != []
    ensures InsertBatch(farms, animals, next, rows)
         == if Insertable(farms, animals, rows[0]) then InsertBatch(farms, animals[next := rows[0]], next + 1, rows[1..]) else None
  {
  }

  /** No row's number is in the table already, and no two rows share one. */
  predicate FreshNumbers(animals: map<AnimalId, Animal>, rows: seq<Animal>) {
    && (forall i :: 0 <= i < |rows| ==> !NumberTaken(animals, rows[i].number, None))
    && (forall i, j :: 0 <= i < j < |rows| ==> rows[i].number != rows[j].number)
  }

  /** The `foreach` of `store`, run inside the open transaction: insert `rows` one by one, stopping at a refused write. */
  method InsertAnimals(db: Database, rows: seq<Animal>) returns (ok: bool)
    requires db.Valid() && db.undo.Some?
    modifies db
    ensures db.Valid() && db.undo == old(db.undo)
    ensures db.farms == old(db.farms) && db.nextFarmId == old(db.nextFarmId)
    ensures ok <==> InsertBatch(old(db.farms), old(db.animals), old(db.nextAnimalId), rows).Some?
    ensures ok ==> InsertBatch(old(db.farms), old(db.animals), old(db.nextAnimalId), rows) == Some((db.animals, db.nextAnimalId))
  {
    ghost var goal := InsertBatch(db.farms, db.animals, db.nextAnimalId, rows);
    var rest := rows;
    while rest != []
      invariant db.Valid() && db.undo == old(db.undo)
      invariant db.farms == old(db.farms) && db.nextFarmId == old(db.nextFarmId)
      invariant InsertBatch(db.farms, db.animals, db.nextAnimalId, rest) == goal
      decreases |rest|
    {
      InsertBatchStep(db.farms, db.animals, db.nextAnimalId, rest);
      var id, w := db.CreateAnimal(rest[0]);
      if w == IntegrityViolation {
        return false;
      }
      rest := rest[1..];
    }
    return true;
  }

  /** `store`, with `DB::beginTransaction()`, `commit()` and `rollBack()`. */
  method Store(db: Database, rules: Rules, actor: UserId, req: StoreRequest) returns (r: Response<FarmId>)
    requires db.Valid() && db.Idle() && EmailsUnique(db.farms)
    modifies db
    ensures db.Valid() && db.Idle() && EmailsUnique(db.farms)
    ensures r.Invalid? <==> StoreErrors(old(db.farms), rules, req) != {}
    ensures r.Invalid? ==> r.errors == StoreErrors(old(db.farms), rules, req)
    ensures !r.NotFound?
    ensures !r.Done? ==> db.State() == old(db.State())
    ensures r.Failed? ==> r.flash == (if req.animals.Given? then DuplicateNumber else TryAgain)
    ensures r.Done? <==>
      && StoreErrors(old(db.farms), rules, req) == {}
      && req.animals.Given? && BatchValid(req.animals.items)
      && FreshNumbers(old(db.animals), Rows(old(db.nextFarmId), req.animals.items))
    ensures r.Done? ==>
      && r.value == old(db.nextFarmId) && r.value !in old(db.farms)
      && db.farms == old(db.farms)[r.value := NewFarm(actor, req)]
      && InsertBatch(db.farms, old(db.animals), old(db.nextAnimalId), Rows(r.value, req.animals.items))
         == Some((db.animals, db.nextAnimalId))
      && AnimalCount(db.animals, r.value) == |req.animals.items|
  {
    var errors := StoreErrors(db.farms, rules, req);
    if errors != {} {
      return Invalid(errors);
    }
    if req.animals.Given? {
      InputErrorsEmptyIff(req.animals.items);
    }
    ghost var t0 := db.State();
    db.BeginTransaction();
    var f := db.CreateFarm(NewFarm(actor, req));
    assert EmailsUnique(db.farms);
    if !req.animals.Given? {
      // `foreach` over a missing or null list raises an error, and the catch block rolls back.
      db.RollBack();
      return Failed(TryAgain);
    }
    ghost var farms1 := db.farms;
    var rows := Rows(f, req.animals.items);
    var ok := InsertAnimals(db, rows);
    InsertBatchSucceedsIff(farms1, t0.animals, t0.nextAnimalId, rows);
    if !ok {
      // A refused insert raises SQLSTATE 23000; the catch block rolls back and names the duplicate.
      db.RollBack();
      return Failed(DuplicateNumber);
    }
    db.Commit();
    InsertBatchResult(farms1, t0.animals, t0.nextAnimalId, rows, f);
    assert AnimalCount(t0.animals, f) == 0 by {
      assert AnimalsOf(t0.animals, f) == {};
    }
    return Done(f);
  }

  // ---------------------------------------------------------------- update

  /** The first validation pass of `update`: the farm's own fields. */
  function FarmFieldErrors(farms: map<FarmId, Farm>, rules: Rules, id: FarmId, req: UpdateRequest): (r: set<FieldKey>)
    ensures r <= {Key("name"), Key("website"), Key("email")}
    ensures r == {} <==>
      && Filled(req.name) && NullableUrl(rules, req.website)
      && Filled(req.email) && rules.emailPattern(req.email.value) && !EmailTaken(farms, req.email.value, Some(id))
  {
    (if Filled(req.name) then {} else {Key("name")})
    + (if NullableUrl(rules, req.website) then {} else {Key("website")})
    + (if Filled(req.email) && rules.emailPattern(req.email.value) && !EmailTaken(farms, req.email.value, Some(id))
       then {} else {Key("email")})
  }

  /** `nullable|integer|exists:farm_animals,id`: an id that names some animal, on any farm. */
  predicate IdKnown(animals: map<AnimalId, Animal>, id: Option<int>) {
    id.None? || (id.value >= 0 && id.value as nat in animals)
  }

  predicate PatchValid(animals: map<AnimalId, Animal>, p: AnimalPatch) {
    IdKnown(animals, p.id) && IntegerGiven(p.animalNumber) && Filled(p.typeName) && NullableInteger(p.years)
  }

  /** The second validation pass of `update`: `animals` must be an array if present, and its elements valid. */
  function PatchErrors(animals: map<AnimalId, Animal>, list: ListField<AnimalPatch>): (r: set<FieldKey>)
    ensures Key("animals") in r <==> list.Null?
    ensures forall k :: k in r && k != Key("animals") ==> list.Given? && k.EntryKey? && k.index < |list.items|
  {
    match list
    case Absent => {}
    case Null => {Key("animals")}
    case Given(ps) =>
      (set i | 0 <= i < |ps| && !IdKnown(animals, ps[i].id) :: EntryKey(i, "id"))
      + (set i | 0 <= i < |ps| && !IntegerGiven(ps[i].animalNumber) :: EntryKey(i, "animal_number"))
      + (set i | 0 <= i < |ps| && !Filled(ps[i].typeName) :: EntryKey(i, "type_name"))
      + (set i | 0 <= i < |ps| && !NullableInteger(ps[i].years) :: EntryKey(i, "years"))
  }

  /** PHP's `empty()` of the validated list: missing or `[]`. */
  predicate NoPatches(list: ListField<AnimalPatch>) {
    list.Absent? || (list.Given? && list.items == [])
  }

  /** A validated roster element: the id to update, or none for a new animal, and the values to write. */
  datatype RosterEntry = RosterEntry(id: Option<AnimalId>, number: string, typeName: string, years: int)

  function ToEntry(p: AnimalPatch, animals: map<AnimalId, Animal>): (e: RosterEntry)
    requires PatchValid(animals, p)
    ensures e.id.None? <==> p.id.None?
    ensures e.id.Some? ==> e.id.value == p.id.value
    ensures e.number == p.animalNumber.value && e.typeName == p.typeName.value && e.years == IntCast(p.years)
  {
    RosterEntry(if p.id.None? then None else Some(p.id.value as nat), p.animalNumber.value, p.typeName.value, IntCast(p.years))
  }

  function Roster(ps: seq<AnimalPatch>, animals: map<AnimalId, Animal>): (es: seq<RosterEntry>)
    requires forall i :: 0 <= i < |ps| ==> PatchValid(animals, ps[i])
    ensures |es| == |ps| && forall i :: 0 <= i < |ps| ==> es[i] == ToEntry(ps[i], animals)
  {
    seq(|ps|, i requires 0 <= i < |ps| => ToEntry(ps[i], animals))
  }

  /** The row an entry writes under `farm`; the age is always an integer. */
  function EntryRow(e: RosterEntry, farm: FarmId): Animal {
    Animal(e.number, e.typeName, Some(e.years), farm)
  }

  /** The entry names an animal of this farm (`FarmAnimal::where('farm_id', ...)->where('id', ...)->first()`). */
  predicate OnFarm(animals: map<AnimalId, Animal>, farm: FarmId, e: RosterEntry) {
    e.id.Some? && e.id.value in animals && animals[e.id.value].farmId == farm
  }

  /**
   * The `foreach` of `update`: an entry without id inserts a row, one whose
   * id names an animal of this farm overwrites it, any other is skipped;
   * `None` when a write is refused.
   */
  function ApplyRoster(farms: map<FarmId, Farm>, animals: map<AnimalId, Animal>, next: nat, farm: FarmId, es: seq<RosterEntry>)
    : (r: Option<(map<AnimalId, Animal>, nat)>)
    ensures r.Some? ==> next <= r.value.1 <= next + |es|
    decreases |es|
  {
    if es == [] then Some((animals, next))
    else
      var e, row := es[0], EntryRow(es[0], farm);
      if e.id.None? then
        if Insertable(farms, animals, row) then ApplyRoster(farms, animals[next := row], next + 1, farm, es[1..]) else None
      else if OnFarm(animals, farm, e) then
        if Savable(farms, animals, e.id.value, row) then ApplyRoster(farms, animals[e.id.value := row], next, farm, es[1..]) else None
      else ApplyRoster(farms, animals, next, farm, es[1..])
  }

  /** The farm row after `update`: name, website and e-mail replaced, owner kept. */
  function Edited(f: Farm, req: UpdateRequest): (g: Farm)
    requires Filled(req.name) && Filled(req.email)
    ensures g.owner == f.owner
    ensures g.name == req.name.value && g.email == req.email.value && g.website == req.website
  {
    f.(name := req.name.value, website := req.website, email := req.email.value)
  }

  /** One step of `ApplyRoster`, for the first entry. */
  lemma ApplyRosterStep(farms: map<FarmId, Farm>, animals: map<AnimalId, Animal>, next: nat, farm: FarmId, es: seq<RosterEntry>)
    requires es != []
    ensures var e, row := es[0], EntryRow(es[0], farm);
      ApplyRoster(farms, animals, next, farm, es)
      == if e.id.None? then
           (if Insertable(farms, animals, row) then ApplyRoster(farms, animals[next := row], next + 1, farm, es[1..]) else None)
         else if OnFarm(animals, farm, e) then
           (if Savable(farms, animals, e.id.value, row) then ApplyRoster(farms, animals[e.id.value := row], next, farm, es[1..]) else None)
         else ApplyRoster(farms, animals, next, farm, es[1..])
  {
  }

  /** The `foreach` of `update`, run inside the open transaction: write the entries one by one, stopping at a refused write. */
  method WriteRoster(db: Database, farm: FarmId, es: seq<RosterEntry>) returns (ok: bool)
    requires db.Valid() && db.undo.Some?
    modifies db
    ensures db.Valid() && db.undo == old(db.undo)
    ensures db.farms == old(db.farms) && db.nextFarmId == old(db.nextFarmId)
    ensures ok <==> ApplyRoster(old(db.farms), old(db.animals), old(db.nextAnimalId), farm, es).Some?
    ensures ok ==> ApplyRoster(old(db.farms), old(db.animals), old(db.nextAnimalId), farm, es) == Some((db.animals, db.nextAnimalId))
  {
    ghost var goal := ApplyRoster(db.farms, db.animals, db.nextAnimalId, farm, es);
    var rest := es;
    while rest != []
      invariant db.Valid() && db.undo == old(db.undo)
      invariant db.farms == old(db.farms) && db.nextFarmId == old(db.nextFarmId)
      invariant ApplyRoster(db.farms, db.animals, db.nextAnimalId, farm, rest) == goal
      decreases |rest|
    {
      ApplyRosterStep(db.farms, db.animals, db.nextAnimalId, farm, rest);
      var e := rest[0];
      var row := EntryRow(e, farm);
      if e.id.None? {
        var newId, w := db.CreateAnimal(row);
        if w == IntegrityViolation {
          return false;
        }
      } else if e.id.value in db.animals && db.animals[e.id.value].farmId == farm {
        var w := db.SaveAnimal(e.id.value, row);
        if w == IntegrityViolation {
          return false;
        }
      }
      // an id naming another farm's animal is skipped (`continue`)
      rest := rest[1..];
    }
    return true;
  }

  /** `update`, with its two validation passes and its transaction. */
  method Update(db: Database, rules: Rules, actor: UserId, id: FarmId, req: UpdateRequest) returns (r: Response<FarmId>)
    requires db.Valid() && db.Idle() && EmailsUnique(db.farms)
    modifies db
    ensures db.Valid() && db.Idle() && EmailsUnique(db.farms)
    ensures r.NotFound? <==> !Owns(old(db.farms), actor, id)
    ensures !r.Done? ==> db.State() == old(db.State())
    ensures r.Invalid? <==>
      && Owns(old(db.farms), actor, id)
      && (FarmFieldErrors(old(db.farms), rules, id, req) != {} || PatchErrors(old(db.animals), req.animals) != {})
    ensures r.Invalid? ==>
      r.errors == (if FarmFieldErrors(old(db.farms), rules, id, req) != {} then FarmFieldErrors(old(db.farms), rules, id, req)
                   else PatchErrors(old(db.animals), req.animals))
    ensures r == Failed(NoAnimals) <==>
      && Owns(old(db.farms), actor, id)
      && FarmFieldErrors(old(db.farms), rules, id, req) == {} && PatchErrors(old(db.animals), req.animals) == {}
      && NoPatches(req.animals)
    ensures r.Failed? ==> r.flash in {NoAnimals, UpdateFailed}
    ensures r.Done? || r == Failed(UpdateFailed) ==>
      && req.animals.Given? && req.animals.items != []
      && FarmFieldErrors(old(db.farms), rules, id, req) == {}
      && (forall i :: 0 <= i < |req.animals.items| ==> PatchValid(old(db.animals), req.animals.items[i]))
      && (r.Done? <==> ApplyRoster(old(db.farms)[id := Edited(old(db.farms)[id], req)], old(db.animals),
                                   old(db.nextAnimalId), id, Roster(req.animals.items, old(db.animals))).Some?)
    ensures r.Done? ==>
      && r.value == id
      && db.farms == old(db.farms)[id := Edited(old(db.farms)[id], req)]
      && db.farms[id].owner == actor
      && Some((db.animals, db.nextAnimalId))
         == ApplyRoster(db.farms, old(db.animals), old(db.nextAnimalId), id, Roster(req.animals.items, old(db.animals)))
  {
    if !(id in db.farms && db.farms[id].owner == actor) {
      return NotFound;
    }
    var farmErrors := FarmFieldErrors(db.farms, rules, id, req);
    if farmErrors != {} {
      return Invalid(farmErrors);
    }
    var patchErrors := PatchErrors(db.animals, req.animals);
    if patchErrors != {} {
      return Invalid(patchErrors);
    }
    if req.animals.Absent? || (req.animals.Given? && req.animals.items == []) {
      return Failed(NoAnimals);
    }
    PatchErrorsEmptyIff(db.animals, req.animals.items);
    db.BeginTransaction();
    db.SaveFarm(id, Edited(db.farms[id], req));
    assert EmailsUnique(db.farms);
    var ok := WriteRoster(db, id, Roster(req.animals.items, db.animals));
    if !ok {
      db.RollBack();
      return Failed(UpdateFailed);
    }
    db.Commit();
    return Done(id);
  }

  // ---------------------------------------------------------------- destroy

  /** `destroy`: delete one of the actor's farms, and through the cascade all its animals. */
  method Destroy(db: Database, actor: UserId, id: FarmId) returns (r: Response<()>)
    requires db.Valid() && db.Idle() && EmailsUnique(db.farms)
    modifies db
    ensures db.Valid() && db.Idle() && EmailsUnique(db.farms)
    ensures r.NotFound? || r.Done?
    ensures r.NotFound? <==> !Owns(old(db.farms), actor, id)
    ensures r.NotFound? ==> db.State() == old(db.State())
    ensures r.Done? ==>
      && db.farms == old(db.farms) - {id}
      && db.animals == WithoutFarm(old(db.animals), id)
      && AnimalCount(db.animals, id) == 0
  {
    if !(id in db.farms && db.farms[id].owner == actor) {
      return NotFound;
    }
    db.DeleteFarm(id);
    assert AnimalsOf(db.animals, id) == {};
    return Done(());
  }

  // ---------------------------------------------------------------- lemmas

  /** The entry error bag is empty exactly when every entry passes its three rules. */
  lemma InputErrorsEmptyIff(batch: seq<AnimalInput>)
    ensures InputErrors(batch) == {} <==> forall i :: 0 <= i < |batch| ==> InputValid(batch[i])
  {
    if exists i :: 0 <= i < |batch| && !InputValid(batch[i]) {
      var i :| 0 <= i < |batch| && !InputValid(batch[i]);
      if !IntegerGiven(batch[i].animalNumber) {
        assert EntryKey(i, "animal_number") in InputErrors(batch);
      } else if !Filled(batch[i].typeName) {
        assert EntryKey(i, "type_name") in InputErrors(batch);
      } else {
        assert EntryKey(i, "years") in InputErrors(batch);
      }
    }
  }

  /** The roster error bag is empty exactly when the list is not null and every element passes. */
  lemma PatchErrorsEmptyIff(animals: map<AnimalId, Animal>, ps: seq<AnimalPatch>)
    ensures PatchErrors(animals, Given(ps)) == {} <==> forall i :: 0 <= i < |ps| ==> PatchValid(animals, ps[i])
  {
    if exists i :: 0 <= i < |ps| && !PatchValid(animals, ps[i]) {
      var i :| 0 <= i < |ps| && !PatchValid(animals, ps[i]);
      if !IdKnown(animals, ps[i].id) {
        assert EntryKey(i, "id") in PatchErrors(animals, Given(ps));
      } else if !IntegerGiven(ps[i].animalNumber) {
        assert EntryKey(i, "animal_number") in PatchErrors(animals, Given(ps));
      } else if !Filled(ps[i].typeName) {
        assert EntryKey(i, "type_name") in PatchErrors(animals, Given(ps));
      } else {
        assert EntryKey(i, "years") in PatchErrors(animals, Given(ps));
      }
    }
  }

  /**
   * The create batch commits exactly when its numbers are new to the table
   * and pairwise distinct: the unique index is the only thing that can
   * abort it.
   */
  lemma {:induction false} InsertBatchSucceedsIff(farms: map<FarmId, Farm>, animals: map<AnimalId, Animal>, next: nat, rows: seq<Animal>)
    requires forall a :: a in animals ==> a < next
    requires forall i :: 0 <= i < |rows| ==> rows[i].farmId in farms
    ensures InsertBatch(farms, animals, next, rows).Some? <==> FreshNumbers(animals, rows)
    decreases |rows|
  {
    if rows != [] {
      var m := animals[next := rows[0]];
      InsertBatchSucceedsIff(farms, m, next + 1, rows[1..]);
      forall n ensures NumberTaken(m, n, None) <==> NumberTaken(animals, n, None) || n == rows[0].number {
        if NumberTaken(m, n, None) && n != rows[0].number {
          var a :| a in m && m[a].number == n;
          assert a in animals;
        }
        if NumberTaken(animals, n, None) {
          var a :| a in animals && animals[a].number == n;
          assert a in m && m[a].number == n;
        }
        if n == rows[0].number {
          assert next in m && m[next].number == n;
        }
      }
      if FreshNumbers(animals, rows) {
        forall i | 0 <= i < |rows[1..]| ensures !NumberTaken(m, rows[1..][i].number, None) {
          assert rows[1..][i] == rows[i + 1];
        }
        forall i, j | 0 <= i < j < |rows[1..]| ensures rows[1..][i].number != rows[1..][j].number {
          assert rows[1..][i] == rows[i + 1] && rows[1..][j] == rows[j + 1];
        }
      }
      if Insertable(farms, animals, rows[0]) && FreshNumbers(m, rows[1..]) {
        forall i | 0 <= i < |rows| ensures !NumberTaken(animals, rows[i].number, None) {
          if i > 0 { assert rows[i] == rows[1..][i - 1]; }
        }
        forall i, j | 0 <= i < j < |rows| ensures rows[i].number != rows[j].number {
          assert rows[j] == rows[1..][j - 1];
          if i > 0 { assert rows[i] == rows[1..][i - 1]; }
        }
      }
    }
  }

  /** Row `i` of `rows` is stored under id `next + i`. */
  predicate PlacedFrom(m: map<AnimalId, Animal>, next: nat, rows: seq<Animal>) {
    forall a :: next <= a < next + |rows| ==> a in m && m[a] == rows[a - next]
  }

  /**
   * A committed create batch puts row `i` under id `next + i`, keeps every
   * earlier row, and adds exactly one animal per row to `farm`.
   */
  lemma {:induction false} InsertBatchResult(farms: map<FarmId, Farm>, animals: map<AnimalId, Animal>, next: nat, rows: seq<Animal>, farm: FarmId)
    requires forall a :: a in animals ==> a < next
    requires forall i :: 0 <= i < |rows| ==> rows[i].farmId == farm
    requires InsertBatch(farms, animals, next, rows).Some?
    ensures var (m, n) := InsertBatch(farms, animals, next, rows).value; n == next + |rows|
    ensures PlacedFrom(InsertBatch(farms, animals, next, rows).value.0, next, rows)
    ensures var (m, n) := InsertBatch(farms, animals, next, rows).value;
      forall a :: a in animals ==> a in m && m[a] == animals[a]
    ensures var (m, n) := InsertBatch(farms, animals, next, rows).value;
      forall a :: a in m ==> a in animals || next <= a < n
    ensures var (m, n) := InsertBatch(farms, animals, next, rows).value;
      AnimalCount(m, farm) == AnimalCount(animals, farm) + |rows|
    decreases |rows|
  {
    if rows != [] {
      var m1 := animals[next := rows[0]];
      InsertBatchResult(farms, m1, next + 1, rows[1..], farm);
      CountAfterInsert(animals, next, rows[0], farm);
      assert InsertBatch(farms, animals, next, rows) == InsertBatch(farms, m1, next + 1, rows[1..]);
      var (m, n) := InsertBatch(farms, m1, next + 1, rows[1..]).value;
      assert next in m1 && m[next] == rows[0];
      assert PlacedFrom(m, next, rows) by {
        forall a | next <= a < next + |rows| ensures a in m && m[a] == rows[a - next] {
          if a > next {
            assert rows[a - next] == rows[1..][a - (next + 1)];
          }
        }
      }
      forall a | a in animals ensures a in m && m[a] == animals[a] {
        assert a in m1 && m1[a] == animals[a];
      }
    }
  }

  /** The update loop never touches an animal of another farm, and never moves or deletes a row. */
  lemma {:induction false} RosterKeepsOtherFarms(farms: map<FarmId, Farm>, animals: map<AnimalId, Animal>, next: nat, farm: FarmId, es: seq<RosterEntry>)
    requires forall a :: a in animals ==> a < next
    requires ApplyRoster(farms, animals, next, farm, es).Some?
    ensures var (m, n) := ApplyRoster(farms, animals, next, farm, es).value;
      && (forall a :: a in animals ==> a in m && m[a].farmId == animals[a].farmId)
      && (forall a :: a in animals && animals[a].farmId != farm ==> m[a] == animals[a])
      && (forall a :: a in m && a !in animals ==> m[a].farmId == farm && next <= a < n)
      && next <= n
    decreases |es|
  {
    if es != [] {
      var e, row := es[0], EntryRow(es[0], farm);
      if e.id.None? {
        RosterKeepsOtherFarms(farms, animals[next := row], next + 1, farm, es[1..]);
      } else if OnFarm(animals, farm, e) {
        RosterKeepsOtherFarms(farms, animals[e.id.value := row], next, farm, es[1..]);
      } else {
        RosterKeepsOtherFarms(farms, animals, next, farm, es[1..]);
      }
    }
  }

  /** How many entries of a roster carry no id, that is, how many rows it inserts. */
  function Inserts(es: seq<RosterEntry>): nat
    decreases |es|
  {
    if es == [] then 0 else (if es[0].id.None? then 1 else 0) + Inserts(es[1..])
  }

  /**
   * A committed update adds one animal to the farm per entry without id and
   * checks no capacity, so the farm can end with more than three animals.
   */
  lemma {:induction false} RosterCount(farms: map<FarmId, Farm>, animals: map<AnimalId, Animal>, next: nat, farm: FarmId, es: seq<RosterEntry>)
    requires forall a :: a in animals ==> a < next
    requires ApplyRoster(farms, animals, next, farm, es).Some?
    ensures var (m, n) := ApplyRoster(farms, animals, next, farm, es).value;
      n == next + Inserts(es) && AnimalCount(m, farm) == AnimalCount(animals, farm) + Inserts(es)
    decreases |es|
  {
    if es != [] {
      var e, row := es[0], EntryRow(es[0], farm);
      if e.id.None? {
        CountAfterInsert(animals, next, row, farm);
        RosterCount(farms, animals[next := row], next + 1, farm, es[1..]);
      } else if OnFarm(animals, farm, e) {
        CountAfterSave(animals, e.id.value, row, farm);
        RosterCount(farms, animals[e.id.value := row], next, farm, es[1..]);
      } else {
        RosterCount(farms, animals, next, farm, es[1..]);
      }
    }
  }

  /** The update loop checks no capacity: a farm holding three animals ends with four after one new entry. */
  lemma RosterCanExceedCapacity()
    ensures var farms := map[1 := Farm("Farm", "farm@example.com", None, 7)];
      var animals := map[1 := Animal("1", "Cow", None, 1), 2 := Animal("2", "Cow", None, 1), 3 := Animal("3", "Cow", None, 1)];
      var r := ApplyRoster(farms, animals, 4, 1, [RosterEntry(None, "4", "Pig", 0)]);
      AnimalCount(animals, 1) == 3 && r.Some? && AnimalCount(r.value.0, 1) == 4
  {
    var farms := map[1 := Farm("Farm", "farm@example.com", None, 7)];
    var animals := map[1 := Animal("1", "Cow", None, 1), 2 := Animal("2", "Cow", None, 1), 3 := Animal("3", "Cow", None, 1)];
    var es := [RosterEntry(None, "4", "Pig", 0)];
    assert AnimalsOf(animals, 1) == {1, 2, 3};
    assert !NumberTaken(animals, "4", None) by {
      assert "4" != "1" && "4" != "2" && "4" != "3";
    }
    assert ApplyRoster(farms, animals, 4, 1, es) == ApplyRoster(farms, animals[4 := EntryRow(es[0], 1)], 5, 1, es[1..]);
    assert es[1..] == [];
    RosterCount(farms, animals, 4, 1, es);
  }
}
