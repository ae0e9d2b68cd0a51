/**
 * The animal edit page: the stored animal's fields, pre-filled from the
 * server's row, with a client check on the type and the number before the
 * update is sent.
 */
module AnimalEdit {
  import opened Input
  import opened Forms
  import Schema
  import Responses
  import AnimalCreate
  import FarmAnimalController

  /** The `animal` prop as the server sends it. */
  datatype AnimalProp = AnimalProp(typeName: string, animalNumber: string, years: Option<int>, farmId: Option<int>)

  /** The form's fields. */
  datatype EditDetails = EditDetails(typeName: string, animalNumber: string, years: AgeField, farmId: Option<int>)

  /** A change event from one of the form's inputs. */
  datatype EditChange = SetType(typeName: string) | SetNumber(number: string) | SetYears(years: AgeField) | SetFarm(farm: int)

  /**
   * The initial state: each field falls back to `''` when the prop's value
   * is falsy, so a stored age of 0 starts out as an empty box, and the farm
   * falls back to the first farm offered, or to none.
   */
  function InitialDetails(animal: AnimalProp, farmIds: seq<int>): (d: EditDetails)
    ensures d.typeName == animal.typeName && d.animalNumber == animal.animalNumber
    ensures d.years == Blank <==> animal.years.None? || animal.years.value == 0
    ensures d.years.Age? ==> animal.years == Some(d.years.n)
    ensures animal.farmId.Some? && animal.farmId.value != 0 ==> d.farmId == animal.farmId
    ensures (animal.farmId.None? || animal.farmId.value == 0) && farmIds != [] ==> d.farmId == Some(farmIds[0])
    ensures (animal.farmId.None? || animal.farmId.value == 0) && farmIds == [] ==> d.farmId.None?
  {
    EditDetails(
      animal.typeName,
      animal.animalNumber,
      if animal.years.None? || animal.years.value == 0 then Blank else Age(animal.years.value),
      if animal.farmId.Some? && animal.farmId.value != 0 then animal.farmId
      else if farmIds != [] then Some(farmIds[0]) else None)
  }

  /** The request `router.put` makes with the form's fields, as the server's `update` sees it: the same body the create page posts. */
  function Payload(d: EditDetails): (r: FarmAnimalController.AnimalRequest)
    ensures r.animalNumber == Nullable(d.animalNumber) && r.typeName == Nullable(d.typeName)
    ensures r.years.None? <==> d.years.Blank?
    ensures r.farmId == d.farmId
  {
    AnimalCreate.Payload(AnimalCreate.AnimalDetails(d.farmId, d.typeName, d.animalNumber, d.years))
  }

  /** The `animal` prop `edit` sends for a stored row. */
  function PropOf(row: Schema.Animal): AnimalProp {
    AnimalProp(row.typeName, row.number, row.years, Some(row.farmId))
  }

  /**
   * Saving the form untouched, for a row the page's own check accepts and
   * whose age lies in 0..20: the page sends it, the server's `update`
   * validation passes, the animal stays on its farm, and the row written
   * back is the stored one, except that an age of 0, shown as an empty
   * box, is stored as null. (Auto-increment ids start at 1, so a stored
   * `farm_id` is never 0.)
   */
  lemma UntouchedEditStoresAge(t: Schema.Tables, id: Schema.AnimalId, farmIds: seq<int>)
    requires Schema.Consistent(t) && id in t.animals && t.animals[id].farmId > 0
    requires t.animals[id].typeName != "" && IsDigits(t.animals[id].number)
    requires t.animals[id].years.None? || 0 <= t.animals[id].years.value <= 20
    ensures var row := t.animals[id];
      var d := InitialDetails(PropOf(row), farmIds);
      var req := Payload(d);
      && ValidateAnimal(d) == map[]
      && FarmAnimalController.UpdateErrors(t, id, req) == {}
      && !FarmAnimalController.Moves(t, id, req)
      && FarmAnimalController.RowOf(req) == row.(years := if row.years == Some(0) then None else row.years)
  {
    var row := t.animals[id];
    var d := InitialDetails(PropOf(row), farmIds);
    if d.years.Age? {
      NumberTextRoundTrip(d.years.n);
    }
    assert !Schema.NumberTaken(t.animals, row.number, Some(id));
  }

  /**
   * The farm update stores any integer age, but an untouched save of a
   * row whose age lies outside 0..20 fails the animal update's `years`
   * rule.
   */
  lemma UntouchedEditRefusesStoredAgeOutOfRange(t: Schema.Tables, id: Schema.AnimalId, farmIds: seq<int>)
    requires id in t.animals && t.animals[id].years.Some?
    requires t.animals[id].years.value < 0 || t.animals[id].years.value > 20
    ensures Responses.Key("years") in FarmAnimalController.UpdateErrors(t, id, Payload(InitialDetails(PropOf(t.animals[id]), farmIds)))
  {
    NumberTextRoundTrip(t.animals[id].years.value);
  }

  /**
   * `validateAnimal`: the type must be chosen, and the number must be
   * typed and be digits only; the age is not checked.
   */
  function ValidateAnimal(d: EditDetails): (errs: Errors)
    ensures errs.Keys <= {"type_name", "animal_number"}
    ensures "type_name" in errs <==> d.typeName == ""
    ensures "animal_number" in errs <==> !IsDigits(d.animalNumber)
    ensures "animal_number" in errs ==>
      errs["animal_number"] == if d.animalNumber == "" then "Animal number is required" else "Animal number must be an integer"
  {
    (if d.typeName == "" then map["type_name" := "Animal type is required"] else map[])
    + (if d.animalNumber == "" then map["animal_number" := "Animal number is required"]
       else if !AllDigits(d.animalNumber) then map["animal_number" := "Animal number must be an integer"]
       else map[])
  }

  /** `{ ...animalDetails, [e.target.name]: e.target.value }`. */
  function ChangedDetails(d: EditDetails, c: EditChange): (r: EditDetails)
    ensures r.typeName == (if c.SetType? then c.typeName else d.typeName)
    ensures r.animalNumber == (if c.SetNumber? then c.number else d.animalNumber)
    ensures r.years == (if c.SetYears? then c.years else d.years)
    ensures r.farmId == (if c.SetFarm? then Some(c.farm) else d.farmId)
  {
    match c
    case SetType(v) => d.(typeName := v)
    case SetNumber(v) => d.(animalNumber := v)
    case SetYears(v) => d.(years := v)
    case SetFarm(v) => d.(farmId := Some(v))
  }

  class AnimalEditPage {
    const animalId: int
    var animalDetails: EditDetails
    var validationErrors: Errors

    /** The page as first rendered for `animal` (whose id is `id`), offering the farms `farmIds`. */
    constructor (id: int, animal: AnimalProp, farmIds: seq<int>)
      ensures animalId == id && animalDetails == InitialDetails(animal, farmIds) && validationErrors == map[]
    {
      animalId := id;
      animalDetails := InitialDetails(animal, farmIds);
      validationErrors := map[];
    }

    /** `handleAnimalChange`: replace the one named field. */
    method HandleAnimalChange(c: EditChange)
      modifies this
      ensures animalDetails == ChangedDetails(old(animalDetails), c)
      ensures validationErrors == old(validationErrors)
    {
      animalDetails := ChangedDetails(animalDetails, c);
    }

    /** `handleSubmit`: send the update when `validateAnimal` finds nothing, else show its errors. */
    method HandleSubmit() returns (put: Option<EditDetails>)
      modifies this
      ensures put.Some? <==> ValidateAnimal(old(animalDetails)) == map[]
      ensures put.Some? ==> put.value == animalDetails && IsDigits(put.value.animalNumber) && put.value.typeName != ""
      ensures validationErrors == if put.Some? then old(validationErrors) else ValidateAnimal(old(animalDetails))
      ensures animalDetails == old(animalDetails)
    {
      var errors := ValidateAnimal(animalDetails);
      if errors != map[] {
        validationErrors := errors;
        return None;
      }
      return Some(animalDetails);
    }
  }
}
