/**
 * The farm edit page: the farm's fields and its animals as the server sent
 * them, edited in place, deleted one at a time, or extended by a new
 * entry. Its state variables are the fields of class `FarmEditPage`.
 * Controls the page does not render are preconditions of their handlers.
 */
module FarmEdit {
  import opened Input
  import opened Forms
  import Schema
  import FarmController

  /** JavaScript truthiness of an optional numeric id: present and not 0. */
  predicate Truthy(id: Option<int>) {
    id.Some? && id.value != 0
  }

  /** The `map` in `handleSubmit`: an entry keeps its id only when the id is truthy. */
  function Stripped(e: Entry): (r: Entry)
    ensures r.id.Some? <==> Truthy(e.id)
    ensures r.id.Some? ==> r.id == e.id
    ensures r.typeName == e.typeName && r.animalNumber == e.animalNumber && r.years == e.years
  {
    if Truthy(e.id) then e else e.(id := None)
  }

  /** The list `handleSubmit` sends: every entry in order, with falsy ids dropped. */
  function SubmittedEntries(list: seq<Entry>): (r: seq<Entry>)
    ensures |r| == |list|
    ensures forall i :: 0 <= i < |list| ==> r[i] == Stripped(list[i])
  {
    seq(|list|, i requires 0 <= i < |list| => Stripped(list[i]))
  }

  /** How many entries of a list have no truthy id. */
  function NewEntries(list: seq<Entry>): nat
    decreases |list|
  {
    if list == [] then 0 else (if Truthy(list[0].id) then 0 else 1) + NewEntries(list[1..])
  }

  /**
   * One element of the submitted `animals` array as `update` reads it: empty
   * strings arrive as null, and an age as its decimal text, which `(int)`
   * turns back into that age.
   */
  function Patch(e: Entry): (p: FarmController.AnimalPatch)
    ensures p.id == e.id
    ensures p.animalNumber == Nullable(e.animalNumber) && p.typeName == Nullable(e.typeName)
    ensures NullableInteger(p.years) && IntCast(p.years) == (if e.years.Blank? then 0 else e.years.n)
  {
    if e.years.Blank? then
      FarmController.AnimalPatch(e.id, Nullable(e.animalNumber), Nullable(e.typeName), None)
    else
      NumberTextRoundTrip(e.years.n);
      FarmController.AnimalPatch(e.id, Nullable(e.animalNumber), Nullable(e.typeName), Some(NumberText(e.years.n)))
  }

  function Patches(list: seq<Entry>): (r: seq<FarmController.AnimalPatch>)
    ensures |r| == |list|
    ensures forall i :: 0 <= i < |list| ==> r[i] == Patch(list[i])
  {
    seq(|list|, i requires 0 <= i < |list| => Patch(list[i]))
  }

  /** The body of `router.put("/farms/{id}", ...)` as the server's `update` sees it. */
  function Request(put: Submission): (r: FarmController.UpdateRequest)
    ensures r.name == Nullable(put.farm.name) && r.email == Nullable(put.farm.email)
    ensures r.website == Nullable(put.farm.website)
    ensures r.animals.Given? && r.animals.items == Patches(put.animals)
  {
    FarmController.UpdateRequest(Nullable(put.farm.name), Nullable(put.farm.website), Nullable(put.farm.email), FarmController.Given(Patches(put.animals)))
  }

  /**
   * The roster `update` builds from the page's submitted list has an insert
   * for exactly the entries without a truthy id.
   */
  lemma {:induction false} SubmittedInserts(list: seq<Entry>, animals: map<Schema.AnimalId, Schema.Animal>)
    requires forall i :: 0 <= i < |list| ==> FarmController.PatchValid(animals, Patch(Stripped(list[i])))
    ensures FarmController.Inserts(FarmController.Roster(Patches(SubmittedEntries(list)), animals)) == NewEntries(list) <= |list|
    decreases |list|
  {
    if list != [] {
      var es := FarmController.Roster(Patches(SubmittedEntries(list)), animals);
      SubmittedInserts(list[1..], animals);
      assert es[1..] == FarmController.Roster(Patches(SubmittedEntries(list[1..])), animals);
    }
  }

  /**
   * A committed update of the page's submission adds to the farm one animal
   * per entry without a truthy id.
   */
  lemma {:induction false} SubmittedUpdateAdds(farms: map<Schema.FarmId, Schema.Farm>, animals: map<Schema.AnimalId, Schema.Animal>, next: nat,
                            farm: Schema.FarmId, put: Submission, list: seq<Entry>)
    requires forall a :: a in animals ==> a < next
    requires put.animals == SubmittedEntries(list)
    requires forall i :: 0 <= i < |list| ==> FarmController.PatchValid(animals, Patch(Stripped(list[i])))
    requires FarmController.ApplyRoster(farms, animals, next, farm, FarmController.Roster(Request(put).animals.items, animals)).Some?
    ensures var (m, n) := FarmController.ApplyRoster(farms, animals, next, farm, FarmController.Roster(Request(put).animals.items, animals)).value;
      Schema.AnimalCount(m, farm) == Schema.AnimalCount(animals, farm) + NewEntries(list)
  {
    SubmittedInserts(list, animals);
    FarmController.RosterCount(farms, animals, next, farm, FarmController.Roster(Request(put).animals.items, animals));
  }

  class FarmEditPage {
    const farmId: int
    var formData: FarmDetails
    var animals: seq<Entry>
    var showNewAnimalFields: bool
    var validationErrors: Errors
    var newAnimal: Entry

    /** The page as first rendered for `farm` with its `details` and animal list. */
    constructor (farm: int, details: FarmDetails, list: seq<Entry>)
      ensures farmId == farm && formData == details && animals == list
      ensures !showNewAnimalFields && validationErrors == map[] && newAnimal == Fresh
    {
      farmId := farm;
      formData := details;
      animals := list;
      showNewAnimalFields := false;
      validationErrors := map[];
      newAnimal := Fresh;
    }

    /** `handleFarmChange`: replace the one named field. */
    method HandleFarmChange(c: FarmChange)
      modifies this
      ensures formData == ChangedFarm(old(formData), c)
      ensures animals == old(animals) && showNewAnimalFields == old(showNewAnimalFields)
      ensures validationErrors == old(validationErrors) && newAnimal == old(newAnimal)
    {
      formData := ChangedFarm(formData, c);
    }

    /** `handleAnimalChange(e, index)`, from the inputs of row `index`: change that one field of that one entry. */
    method HandleAnimalChange(c: EntryChange, index: int)
      requires 0 <= index < |animals|
      modifies this
      ensures |animals| == |old(animals)|
      ensures animals[index] == Changed(old(animals)[index], c)
      ensures forall i :: 0 <= i < |animals| && i != index ==> animals[i] == old(animals)[i]
      ensures formData == old(formData) && showNewAnimalFields == old(showNewAnimalFields)
      ensures validationErrors == old(validationErrors) && newAnimal == old(newAnimal)
    {
      animals := animals[index := Changed(animals[index], c)];
    }

    /**
     * `handleDeleteAnimal`: drop entry `index` from the list, and return the
     * id to delete on the server when that entry has a truthy one.
     */
    method HandleDeleteAnimal(index: int) returns (serverDelete: Option<int>)
      modifies this
      ensures serverDelete.Some? <==> 0 <= index < |old(animals)| && Truthy(old(animals)[index].id)
      ensures serverDelete.Some? ==> serverDelete == old(animals)[index].id
      ensures animals == KeepOthers(old(animals), index)
      ensures 0 <= index < |old(animals)| ==> |animals| == |old(animals)| - 1
      ensures NumbersDistinct(old(animals)) ==> NumbersDistinct(animals)
      ensures formData == old(formData) && showNewAnimalFields == old(showNewAnimalFields)
      ensures validationErrors == old(validationErrors) && newAnimal == old(newAnimal)
    {
      serverDelete := None;
      if 0 <= index < |animals| && Truthy(animals[index].id) {
        serverDelete := animals[index].id;
      }
      KeepOthersRemovesOne(animals, index);
      if NumbersDistinct(animals) {
        RemoveKeepsDistinct(animals, index);
      }
      animals := KeepOthers(animals, index);
    }

    /** The "+ Add Animal" / "Cancel" button, rendered only while the list has room. */
    method ToggleNewAnimalFields()
      requires |animals| < MaxAnimals
      modifies this
      ensures showNewAnimalFields == !old(showNewAnimalFields)
      ensures formData == old(formData) && animals == old(animals)
      ensures validationErrors == old(validationErrors) && newAnimal == old(newAnimal)
    {
      showNewAnimalFields := !showNewAnimalFields;
    }

    /** `handleNewAnimalChange`: replace the one named field of the pending entry. */
    method HandleNewAnimalChange(c: EntryChange)
      requires |animals| < MaxAnimals && showNewAnimalFields
      modifies this
      ensures newAnimal == Changed(old(newAnimal), c)
      ensures formData == old(formData) && animals == old(animals)
      ensures validationErrors == old(validationErrors) && showNewAnimalFields == old(showNewAnimalFields)
    {
      newAnimal := Changed(newAnimal, c);
    }

    /**
     * `handleAddAnimal`, behind the Save button of the new-animal fields,
     * which the page renders only while the list has room: append a copy
     * of the pending entry if it validates against the current list.
     */
    method HandleAddAnimal()
      requires |animals| < MaxAnimals && showNewAnimalFields
      modifies this
      ensures |animals| <= MaxAnimals
      ensures formData == old(formData)
      ensures ValidateNewAnimal(old(animals), old(newAnimal)) != map[] ==>
        && validationErrors == ValidateNewAnimal(old(animals), old(newAnimal))
        && animals == old(animals) && newAnimal == old(newAnimal) && showNewAnimalFields
      ensures ValidateNewAnimal(old(animals), old(newAnimal)) == map[] ==>
        && animals == old(animals) + [old(newAnimal)]
        && newAnimal == Fresh && !showNewAnimalFields && validationErrors == map[]
      ensures NumbersDistinct(old(animals)) ==> NumbersDistinct(animals)
    {
      var errors := ValidateNewAnimal(animals, newAnimal);
      if errors != map[] {
        validationErrors := errors;
      } else {
        if NumbersDistinct(animals) {
          AppendKeepsDistinct(animals, newAnimal);
        }
        animals := animals + [newAnimal];
        newAnimal := Fresh;
        showNewAnimalFields := false;
        validationErrors := map[];
      }
    }

    /**
     * `handleSubmit`: always send the farm's fields with the id-stripped
     * list to `/farms/{farmId}`, then close and reset the new-animal fields.
     */
    method HandleSubmit() returns (put: Submission)
      modifies this
      ensures put == Submission(old(formData), SubmittedEntries(old(animals)))
      ensures newAnimal == Fresh && !showNewAnimalFields
      ensures formData == old(formData) && animals == old(animals) && validationErrors == old(validationErrors)
    {
      put := Submission(formData, SubmittedEntries(animals));
      newAnimal := Fresh;
      showNewAnimalFields := false;
    }
  }
}
