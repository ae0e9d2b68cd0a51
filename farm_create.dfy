/**
 * The farm create page: the farm's own fields, a list of at most three new
 * animals, and the new-animal fields that feed it. Its state variables are
 * the fields of class `FarmCreatePage`; a handler updates them in place.
 * Controls the page does not render are preconditions of their handlers.
 */
module FarmCreate {
  import opened Input
  import opened Forms

  /** `validate`: the name and the e-mail address must not be empty; nothing else is checked here. */
  function Validate(f: FarmDetails): (errs: Errors)
    ensures errs.Keys <= {"name", "email"}
    ensures "name" in errs <==> f.name == ""
    ensures "email" in errs <==> f.email == ""
  {
    (if f.name == "" then map["name" := "Farm name is required"] else map[])
    + (if f.email == "" then map["email" := "Email is required"] else map[])
  }

  class FarmCreatePage {
    var formData: FarmDetails
    var validationErrors: Errors
    var animals: seq<Entry>
    var showNewAnimalFields: bool
    var newAnimal: Entry

    /**
     * What the page's handlers keep: the numbers in the list are pairwise
     * distinct, the list holds at most three animals, and the new-animal
     * fields are open only while there is room for one more.
     */
    ghost predicate Valid()
      reads this
    {
      NumbersDistinct(animals) && |animals| <= MaxAnimals && (showNewAnimalFields ==> |animals| < MaxAnimals)
    }

    constructor ()
      ensures Valid()
      ensures formData == FarmDetails("", "", "") && validationErrors == map[]
      ensures animals == [] && !showNewAnimalFields && newAnimal == Fresh
    {
      formData := FarmDetails("", "", "");
      validationErrors := map[];
      animals := [];
      showNewAnimalFields := false;
      newAnimal := Fresh;
    }

    /** `handleFarmChange`: replace the one named field. */
    method HandleFarmChange(c: FarmChange)
      modifies this
      ensures formData == ChangedFarm(old(formData), c)
      ensures validationErrors == old(validationErrors) && animals == old(animals)
      ensures showNewAnimalFields == old(showNewAnimalFields) && newAnimal == old(newAnimal)
    {
      formData := ChangedFarm(formData, c);
    }

    /** `handleSubmit`: post the farm with its list when `validate` finds nothing, else show its errors. */
    method HandleSubmit() returns (post: Option<Submission>)
      modifies this
      ensures post.Some? <==> Validate(old(formData)) == map[]
      ensures post.Some? ==> post.value == Submission(formData, animals)
      ensures validationErrors == if post.Some? then old(validationErrors) else Validate(old(formData))
      ensures formData == old(formData) && animals == old(animals)
      ensures showNewAnimalFields == old(showNewAnimalFields) && newAnimal == old(newAnimal)
    {
      var errors := Validate(formData);
      if errors != map[] {
        validationErrors := errors;
        return None;
      }
      return Some(Submission(formData, animals));
    }

    /** `handleNewAnimalChange`: replace the one named field of the pending entry. */
    method HandleNewAnimalChange(c: EntryChange)
      requires Valid() && showNewAnimalFields
      modifies this
      ensures Valid()
      ensures newAnimal == Changed(old(newAnimal), c)
      ensures formData == old(formData) && validationErrors == old(validationErrors)
      ensures animals == old(animals) && showNewAnimalFields == old(showNewAnimalFields)
    {
      newAnimal := Changed(newAnimal, c);
    }

    /**
     * `handleAddAnimal`, behind the Save button of the open new-animal
     * fields: append a copy of the pending entry if it validates, else
     * replace the error map with the validator's.
     */
    method HandleAddAnimal()
      requires Valid() && showNewAnimalFields
      modifies this
      ensures Valid()
      ensures formData == old(formData)
      ensures ValidateNewAnimal(old(animals), old(newAnimal)) != map[] ==>
        && validationErrors == ValidateNewAnimal(old(animals), old(newAnimal))
        && animals == old(animals) && newAnimal == old(newAnimal) && showNewAnimalFields
      ensures ValidateNewAnimal(old(animals), old(newAnimal)) == map[] ==>
        && animals == old(animals) + [old(newAnimal)]
        && newAnimal == Fresh && !showNewAnimalFields && validationErrors == map[]
    {
      var errors := ValidateNewAnimal(animals, newAnimal);
      if errors != map[] {
        validationErrors := errors;
      } else {
        AppendKeepsDistinct(animals, newAnimal);
        animals := animals + [newAnimal];
        newAnimal := Fresh;
        showNewAnimalFields := false;
        validationErrors := map[];
      }
    }

    /** `handleDeleteAnimal`: drop entry `index`, keeping the others in order. */
    method HandleDeleteAnimal(index: int)
      requires Valid()
      modifies this
      ensures Valid()
      ensures animals == KeepOthers(old(animals), index)
      ensures formData == old(formData) && validationErrors == old(validationErrors)
      ensures showNewAnimalFields == old(showNewAnimalFields) && newAnimal == old(newAnimal)
    {
      RemoveKeepsDistinct(animals, index);
      KeepOthersRemovesOne(animals, index);
      animals := KeepOthers(animals, index);
    }

    /**
     * `toggleNewAnimalFields`, the "+ Add Animal" / "Cancel" button shown
     * while the list has room: flip the fields, and on closing them drop
     * the `type_name` and `animal_number` errors and no other.
     */
    method ToggleNewAnimalFields()
      requires Valid() && |animals| < MaxAnimals
      modifies this
      ensures Valid()
      ensures showNewAnimalFields == !old(showNewAnimalFields)
      ensures validationErrors == if old(showNewAnimalFields)
                                  then old(validationErrors) - {"type_name", "animal_number"}
                                  else old(validationErrors)
      ensures formData == old(formData) && animals == old(animals) && newAnimal == old(newAnimal)
    {
      if showNewAnimalFields {
        validationErrors := validationErrors - {"type_name", "animal_number"};
      }
      showNewAnimalFields := !showNewAnimalFields;
    }
  }
}
