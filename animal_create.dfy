/**
 * The animal create page: one animal's fields and the error map, which
 * shows the server's errors when they arrive and loses a field's entry as
 * soon as that field is edited.
 */
module AnimalCreate {
  import opened Input
  import opened Forms
  import opened Schema
  import opened Responses
  import FarmAnimalController

  /** The form's fields; `farmId` is the selected farm's id, `None` while the empty option is selected. */
  datatype AnimalDetails = AnimalDetails(farmId: Option<int>, typeName: string, animalNumber: string, years: AgeField)

  /** A change event from one of the form's inputs. */
  datatype DetailChange = SetFarm(farm: Option<int>) | SetType(typeName: string) | SetNumber(number: string) | SetYears(years: AgeField)

  /** The `name` of the input a change comes from. */
  function FieldName(c: DetailChange): string {
    match c
    case SetFarm(_) => "farm_id"
    case SetType(_) => "type_name"
    case SetNumber(_) => "animal_number"
    case SetYears(_) => "years"
  }

  /** `{ ...animalDetails, [e.target.name]: e.target.value }`. */
  function ChangedDetails(d: AnimalDetails, c: DetailChange): (r: AnimalDetails)
    ensures r.farmId == (if c.SetFarm? then c.farm else d.farmId)
    ensures r.typeName == (if c.SetType? then c.typeName else d.typeName)
    ensures r.animalNumber == (if c.SetNumber? then c.number else d.animalNumber)
    ensures r.years == (if c.SetYears? then c.years else d.years)
  {
    match c
    case SetFarm(v) => d.(farmId := v)
    case SetType(v) => d.(typeName := v)
    case SetNumber(v) => d.(animalNumber := v)
    case SetYears(v) => d.(years := v)
  }

  /**
   * `validate`: the farm, the type and the number must be chosen or typed;
   * an age, when one is typed, must lie in 0..20. The number's digits are
   * not checked here.
   */
  function Validate(d: AnimalDetails): (errs: Errors)
    ensures errs.Keys <= {"farm_id", "type_name", "animal_number", "years"}
    ensures "farm_id" in errs <==> d.farmId.None?
    ensures "type_name" in errs <==> d.typeName == ""
    ensures "animal_number" in errs <==> d.animalNumber == ""
    ensures "years" in errs <==> d.years.Age? && !(0 <= d.years.n <= 20)
  {
    (if d.farmId.None? then map["farm_id" := "Farm selection is required"] else map[])
    + (if d.typeName == "" then map["type_name" := "Animal type selection is required"] else map[])
    + (if d.animalNumber == "" then map["animal_number" := "Animal number is required"] else map[])
    + (if d.years.Age? && (d.years.n < 0 || d.years.n > 20) then map["years" := "Age must be between 0 and 20"] else map[])
  }

  class AnimalCreatePage {
    var animalDetails: AnimalDetails
    var validationErrors: Errors

    constructor ()
      ensures animalDetails == AnimalDetails(None, "", "", Blank) && validationErrors == map[]
    {
      animalDetails := AnimalDetails(None, "", "", Blank);
      validationErrors := map[];
    }

    /** The effect on the server's `errors` prop: whenever it changes, it replaces the error map. */
    method ReceiveServerErrors(errors: Errors)
      modifies this
      ensures validationErrors == errors && animalDetails == old(animalDetails)
    {
      validationErrors := errors;
    }

    /** `handleAnimalChange`: set the one named field and drop that field's error, and no other. */
    method HandleAnimalChange(c: DetailChange)
      modifies this
      ensures animalDetails == ChangedDetails(old(animalDetails), c)
      ensures validationErrors.Keys == old(validationErrors).Keys - {FieldName(c)}
      ensures forall k :: k in validationErrors ==> validationErrors[k] == old(validationErrors)[k]
    {
      animalDetails := ChangedDetails(animalDetails, c);
      validationErrors := validationErrors - {FieldName(c)};
    }

    /** `handleSubmit`: post the fields when `validate` finds nothing, else show its errors. */
    method HandleSubmit() returns (post: Option<AnimalDetails>)
      modifies this
      ensures post.Some? <==> Validate(old(animalDetails)) == map[]
      ensures post.Some? ==> post.value == animalDetails
      ensures validationErrors == if post.Some? then old(validationErrors) else Validate(old(animalDetails))
      ensures animalDetails == old(animalDetails)
    {
      var errors := Validate(animalDetails);
      if errors != map[] {
        validationErrors := errors;
        return None;
      }
      return Some(animalDetails);
    }
  }

  /** The request `router.post("/animals", animalDetails)` makes, as the server's `store` sees it. */
  function Payload(d: AnimalDetails): (r: FarmAnimalController.AnimalRequest)
    ensures r.animalNumber == Nullable(d.animalNumber) && r.typeName == Nullable(d.typeName)
    ensures r.years.None? <==> d.years.Blank?
    ensures r.farmId == d.farmId
  {
    FarmAnimalController.AnimalRequest(
      Nullable(d.animalNumber),
      Nullable(d.typeName),
      if d.years.Blank? then None else Some(NumberText(d.years.n)),
      d.farmId)
  }

  /**
   * The page never holds back an animal the server would accept: every
   * field `validate` flags also fails the server's validation of `store`.
   */
  lemma ServerAcceptedPassesValidate(t: Tables, d: AnimalDetails)
    requires FarmAnimalController.StoreErrors(t, Payload(d)) == {}
    ensures Validate(d) == map[]
  {
    if d.years.Age? {
      NumberTextRoundTrip(d.years.n);
    }
  }

  /** The converse fails: the page lets through a number the server's `integer` rule refuses. */
  lemma ValidateWeakerThanServer(t: Tables)
    ensures var d := AnimalDetails(Some(1), "Cow", "x", Blank);
      Validate(d) == map[] && Key("animal_number") in FarmAnimalController.StoreErrors(t, Payload(d))
  {
    var d := AnimalDetails(Some(1), "Cow", "x", Blank);
    assert !IsIntegerText("x") by {
      assert Unsigned("x") == "x";
      assert !IsDigit("x"[0]);
    }
  }
}
