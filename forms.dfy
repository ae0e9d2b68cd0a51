/**
 * What the page components share: the error map, the age box, the
 * digits-only check, and, for the farm create and edit pages, the farm's
 * fields, the animal rows they keep in their state, the new-animal
 * validator, the remove-at-index filter, and the per-field change of an
 * entry.
 */
module Forms {
  import opened Input

  datatype FarmDetails = FarmDetails(name: string, website: string, email: string)

  /** A change event from one of the farm's inputs: the input's `name` and its new value. */
  datatype FarmChange = Name(name: string) | Website(website: string) | Email(email: string)

  /** `{ ...formData, [e.target.name]: e.target.value }`. */
  function ChangedFarm(f: FarmDetails, c: FarmChange): (r: FarmDetails)
    ensures r.name == (if c.Name? then c.name else f.name)
    ensures r.website == (if c.Website? then c.website else f.website)
    ensures r.email == (if c.Email? then c.email else f.email)
  {
    match c
    case Name(v) => f.(name := v)
    case Website(v) => f.(website := v)
    case Email(v) => f.(email := v)
  }

  /** The age box: empty (`''` or undefined), or a number. */
  datatype AgeField = Blank | Age(n: int)

  /** One animal in a page's list; `id` is set on rows that came from the server. */
  datatype Entry = Entry(id: Option<int>, typeName: string, animalNumber: string, years: AgeField)

  /** A page's error map, from field name to message. */
  type Errors = map<string, string>

  /** The body a farm page sends: the farm's fields and its list of animals. */
  datatype Submission = Submission(farm: FarmDetails, animals: seq<Entry>)

  /** The most animals a farm page lets its list reach. */
  const MaxAnimals: nat := 3

  /** The entry the new-animal fields are reset to. */
  const Fresh := Entry(None, "", "", Blank)

  /** The pattern `^\d+$`: one or more decimal digits and nothing else. */
  predicate IsDigits(s: string) {
    |s| > 0 && AllDigits(s)
  }

  /** `animals.some(animal => animal.animal_number === number)`. */
  predicate NumberInList(list: seq<Entry>, number: string) {
    exists i :: 0 <= i < |list| && list[i].animalNumber == number
  }

  /** What the new-animal validator accepts: a type, and a digits-only number new to the list. */
  predicate Acceptable(list: seq<Entry>, e: Entry) {
    e.typeName != "" && IsDigits(e.animalNumber) && !NumberInList(list, e.animalNumber)
  }

  /**
   * `validateNewAnimal` of both farm pages: the type check, then the number
   * checks in order, so the number gets at most the first message that
   * applies.
   */
  function ValidateNewAnimal(list: seq<Entry>, e: Entry): (errs: Errors)
    ensures errs.Keys <= {"type_name", "animal_number"}
    ensures "type_name" in errs <==> e.typeName == ""
    ensures "animal_number" in errs <==> !(IsDigits(e.animalNumber) && !NumberInList(list, e.animalNumber))
    ensures errs == map[] <==> Acceptable(list, e)
    ensures e.typeName == "" ==> errs["type_name"] == "Animal type is required"
    ensures e.animalNumber == "" ==> errs["animal_number"] == "Animal number is required"
    ensures e.animalNumber != "" && !AllDigits(e.animalNumber) ==> errs["animal_number"] == "Animal number must contain only digits"
    ensures "animal_number" in errs && NumberInList(list, e.animalNumber) && IsDigits(e.animalNumber)
            ==> errs["animal_number"] == "Animal number must be unique"
  {
    var typeErrors: Errors := if e.typeName == "" then map["type_name" := "Animal type is required"] else map[];
    if e.animalNumber == "" then typeErrors["animal_number" := "Animal number is required"]
    else if !AllDigits(e.animalNumber) then typeErrors["animal_number" := "Animal number must contain only digits"]
    else if NumberInList(list, e.animalNumber) then typeErrors["animal_number" := "Animal number must be unique"]
    else typeErrors
  }

  /** `list.filter((_, i) => i !== index)`. */
  function KeepOthers(list: seq<Entry>, index: int): (r: seq<Entry>)
    ensures |r| == if 0 <= index < |list| then |list| - 1 else |list|
    decreases |list|
  {
    if list == [] then []
    else (if index == 0 then [] else [list[0]]) + KeepOthers(list[1..], index - 1)
  }

  /** The filter removes exactly element `index` and keeps the rest in order; an index out of range removes nothing. */
  lemma {:induction false} KeepOthersRemovesOne(list: seq<Entry>, index: int)
    ensures 0 <= index < |list| ==> KeepOthers(list, index) == list[..index] + list[index + 1..]
    ensures !(0 <= index < |list|) ==> KeepOthers(list, index) == list
    decreases |list|
  {
    if list != [] {
      var tail := KeepOthers(list[1..], index - 1);
      KeepOthersRemovesOne(list[1..], index - 1);
      if index == 0 {
        calc {
          KeepOthers(list, index);
          tail;
          list[1..];
          list[..index] + list[index + 1..];
        }
      } else {
        assert KeepOthers(list, index) == [list[0]] + tail;
        if 0 < index < |list| {
          assert tail == list[1..][..index - 1] + list[1..][index..];
          assert list[..index] == [list[0]] + list[1..][..index - 1];
          assert list[index + 1..] == list[1..][index..];
        } else {
          assert tail == list[1..];
          assert list == [list[0]] + list[1..];
        }
      }
    }
  }

  /** No two entries of the list share an animal number. */
  predicate NumbersDistinct(list: seq<Entry>) {
    forall i, j :: 0 <= i < j < |list| ==> list[i].animalNumber != list[j].animalNumber
  }

  /** Appending an entry whose number is not in the list keeps the numbers distinct. */
  lemma AppendKeepsDistinct(list: seq<Entry>, e: Entry)
    requires NumbersDistinct(list) && !NumberInList(list, e.animalNumber)
    ensures NumbersDistinct(list + [e])
  {
    forall i, j | 0 <= i < j < |list + [e]| ensures (list + [e])[i].animalNumber != (list + [e])[j].animalNumber {
      if j == |list| {
        assert (list + [e])[i] == list[i];
      }
    }
  }

  /** Removing an entry keeps the numbers distinct. */
  lemma RemoveKeepsDistinct(list: seq<Entry>, index: int)
    requires NumbersDistinct(list)
    ensures NumbersDistinct(KeepOthers(list, index))
  {
    KeepOthersRemovesOne(list, index);
    if 0 <= index < |list| {
      var r := KeepOthers(list, index);
      forall i, j | 0 <= i < j < |r| ensures r[i].animalNumber != r[j].animalNumber {
        var i', j' := if i < index then i else i + 1, if j < index then j else j + 1;
        assert r[i] == list[i'] && r[j] == list[j'];
      }
    }
  }

  /** A change event from one of an entry's inputs: the input's `name` and its new value. */
  datatype EntryChange = TypeName(typeName: string) | AnimalNumber(number: string) | Years(years: AgeField)

  /** `{ ...entry, [e.target.name]: e.target.value }`. */
  function Changed(e: Entry, c: EntryChange): (r: Entry)
    ensures r.id == e.id
    ensures r.typeName == (if c.TypeName? then c.typeName else e.typeName)
    ensures r.animalNumber == (if c.AnimalNumber? then c.number else e.animalNumber)
    ensures r.years == (if c.Years? then c.years else e.years)
  {
    match c
    case TypeName(v) => e.(typeName := v)
    case AnimalNumber(v) => e.(animalNumber := v)
    case Years(v) => e.(years := v)
  }

  /** The decimal digit for `d`. */
  function DigitChar(d: nat): char
    requires d < 10
  {
    ('0' as int + d) as char
  }

  /** The decimal digits of `n`, with no leading zero. */
  function Digits(n: nat): (s: string)
    ensures |s| > 0 && AllDigits(s)
    decreases n
  {
    if n < 10 then [DigitChar(n)] else Digits(n / 10) + [DigitChar(n % 10)]
  }

  /** The decimal text of an integer, as a request carries it. */
  function NumberText(n: int): string {
    if n < 0 then "-" + Digits(-n) else Digits(n)
  }

  /** The digits of `n` read back as `n`, and start with a zero only when `n` is 0. */
  lemma {:induction false} DigitsRoundTrip(n: nat)
    ensures DigitsValue(Digits(n)) == n
    ensures Digits(n)[0] == '0' ==> n == 0
    decreases n
  {
    if n >= 10 {
      DigitsRoundTrip(n / 10);
      var s := Digits(n);
      assert s[..|s| - 1] == Digits(n / 10);
      assert s[0] == Digits(n / 10)[0];
    }
  }

  /** The text of a number passes Laravel's `integer` rule and denotes that number. */
  lemma NumberTextRoundTrip(n: int)
    ensures IsIntegerText(NumberText(n)) && IntegerValue(NumberText(n)) == n
  {
    if n < 0 {
      DigitsRoundTrip(-n);
      assert Unsigned(NumberText(n)) == Digits(-n);
    } else {
      DigitsRoundTrip(n);
      assert Unsigned(NumberText(n)) == Digits(n);
    }
  }
}
