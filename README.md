# Animal farm: farms, their animals, and the pages that edit them

This project models the record-keeping core of the animal-farm application.
A signed-in user owns farms. Each farm holds animals, and each animal has a
number, a type and an optional age. The model covers two sides.

- **Server.** Two controllers, one for farms and one for animals, write to a
  database with two tables. The `farm_animals` table has a unique
  `animal_number` column and a foreign key to `farms` that cascades on
  delete. Farms are created and updated together with their animal lists in
  one transaction. Animals are created, updated, moved between farms and
  deleted one at a time, with a limit of three animals per farm.
- **Browser.** Four React pages: the farm create page, the farm edit page,
  the animal create page and the animal edit page. They keep form state,
  run a client-side check before they send a request, and send the request
  the server's controllers receive.

Modules:

- `Input` (`input.dfy`): request values as the validator sees them. Empty
  strings arrive as null. Dafny functions decide the `integer`, `min`/`max`
  and `nullable` rules. The `email`, `url` and `regex` rules are opaque
  predicates held in a `Rules` value.
- `Schema` (`schema.dfy`): the `farms` and `farm_animals` tables, and a
  `Database` class that holds them. The class enforces the unique animal
  number and the foreign key on every write. It cascades a farm's deletion
  to its animals. A transaction keeps an undo snapshot that `RollBack`
  restores.
- `Responses` (`responses.dfy`): what an action answers. Either it succeeded,
  the record was not found, validation failed with a set of fields, or a
  failure was flashed.
- `FarmController`, `FarmAnimalController`: the controllers' actions as
  methods on a `Database`. Each is proved against a specification function
  of the tables from before the call. The farm store and update loops are
  proved against the recursive functions `InsertBatch` and `ApplyRoster`.
- `Forms`: definitions shared by the two farm pages. These are the entry
  lists, the new-animal validator, index-based removal, and the decimal text
  of an integer.
- `FarmCreate`, `FarmEdit`, `AnimalCreate`, `AnimalEdit`: one class per page.
  Its fields are the page's state variables and its methods are the event
  handlers. A control the page renders only conditionally becomes a
  precondition of its handler. For example, the add-animal controls exist
  only while the list holds fewer than three entries.

Where the code is more permissive than a reader might expect:

- The three-animal cap is enforced only by the animal controller's `store`
  and `update` (app/Http/Controllers/FarmAnimalController.php:59-64,
  130-135). The farm controller's `store` and `update` insert whatever list
  they receive. `FarmController.RosterCanExceedCapacity` shows a farm that
  ends with four animals.
- The animal controller's `store` does not check that the acting user owns
  the target farm. Any existing farm is accepted
  (app/Http/Controllers/FarmAnimalController.php:55).
- `show` in both controllers returns any record by id, whoever owns it.
- The animal edit page is offered every farm, not only the user's own
  (app/Http/Controllers/FarmAnimalController.php:106). The move in `update`
  is checked only for existence and capacity.
- A farm `update` that succeeds stores `(int)` of an animal's age, so a blank
  age becomes 0, and it accepts any integer age. The animal edit page shows a
  stored 0 as a blank box, so saving that page unchanged stores null
  (`AnimalEdit.UntouchedEditStoresAge`). A stored age outside 0..20 makes the
  unchanged save fail the animal update's `years` rule
  (`AnimalEdit.UntouchedEditRefusesStoredAgeOutOfRange`).

## Model

| member | source | states |
|---|---|---|
| Schema.AnimalsOf | app/Models/Farm.php:26-29 | a farm's animals are exactly the rows whose `farm_id` is that farm |
| Schema.WithoutFarm | database/migrations/2025_04_29_144930_create_farm_animals_table.php:19 | cascading a farm's deletion keeps exactly the rows of the other farms, unchanged |
| Schema.Database.constructor | database/migrations/2025_04_29_144930_create_farm_animals_table.php:14-21 | the database starts empty, consistent and outside any transaction |
| Schema.Database.BeginTransaction | app/Http/Controllers/FarmController.php:65 | opening a transaction changes no row and records the current tables as the undo snapshot |
| Schema.Database.Commit | app/Http/Controllers/FarmController.php:86 | committing keeps every row and closes the transaction |
| Schema.Database.RollBack | app/Http/Controllers/FarmController.php:90 | rolling back restores the tables exactly as they were when the transaction opened |
| Schema.Database.CreateFarm | app/Http/Controllers/FarmController.php:69-74 | an insert into `farms` gets the next id, which no farm had, and leaves `farm_animals` alone |
| Schema.Database.SaveFarm | app/Http/Controllers/FarmController.php:169-172 | saving a farm overwrites that one row and nothing else |
| Schema.Database.CreateAnimal | database/migrations/2025_04_29_144930_create_farm_animals_table.php:15-19 | an insert succeeds iff the farm exists and no row holds the number; a refused insert changes nothing; consistency is kept |
| Schema.Database.SaveAnimal | database/migrations/2025_04_29_144930_create_farm_animals_table.php:16-19 | overwriting a row succeeds iff its farm exists and no other row holds the number; a refused save changes nothing |
| Schema.Database.DeleteFarm | database/migrations/2025_04_29_144930_create_farm_animals_table.php:19 | deleting a farm removes it and exactly its animals |
| Schema.Database.DeleteAnimal | app/Http/Controllers/FarmAnimalController.php:153 | deleting an animal removes that one row |
| Schema.CascadeLeavesNoOrphans | database/migrations/2025_04_29_144930_create_farm_animals_table.php:19 | after a cascade the tables are still consistent, the farm has no animals, and every other farm's animals survive |
| Schema.CountAfterInsert | app/Http/Controllers/FarmAnimalController.php:60-74 | inserting a new row adds one to the count of its own farm and to no other farm |
| Schema.CountAfterSave | app/Http/Controllers/FarmAnimalController.php:130-138 | overwriting a row moves one unit of count from its old farm to its new farm |
| Schema.CountAfterDelete | app/Http/Controllers/FarmAnimalController.php:153 | deleting a row takes one from its farm's count |
| Input.Nullable | app/Http/Controllers/FarmController.php:55-63 | a submitted field is null exactly when it is empty, and otherwise its text is unchanged |
| Input.NullableValue | app/Http/Controllers/FarmAnimalController.php:72 | a missing age is stored as null and a given one as its integer value |
| Input.IntCast | app/Http/Controllers/FarmController.php:184 | `(int)` of a null age is 0 and of an integer text is its value |
| FarmController.Index | app/Http/Controllers/FarmController.php:19-28 | the listing holds exactly the actor's farms, as stored |
| FarmController.Show | app/Http/Controllers/FarmController.php:104-113 | any existing farm is found, with exactly its animals, whoever owns it |
| FarmController.Edit | app/Http/Controllers/FarmController.php:118-127 | the farm is found iff the actor owns it |
| FarmController.NewFarm | app/Http/Controllers/FarmController.php:69-74 | the new farm carries the validated name, e-mail and website and belongs to the actor |
| FarmController.Row | app/Http/Controllers/FarmController.php:78-83 | each animal row is placed on the new farm with the validated number, type and age |
| FarmController.Rows | app/Http/Controllers/FarmController.php:77-84 | the batch yields one row per item, in order |
| FarmController.StoreErrors | app/Http/Controllers/FarmController.php:55-63 | `store`'s validation passes iff the name is given, the website is null or a URL, the e-mail is a free address, and every list item is valid |
| FarmController.InsertBatch | app/Http/Controllers/FarmController.php:77-84 | a batch that inserts without a refusal puts every row on an existing farm and never moves the id counter back |
| FarmController.InsertAnimals | app/Http/Controllers/FarmController.php:77-84 | the insert loop succeeds iff `InsertBatch` does, and then leaves exactly the tables `InsertBatch` computes |
| FarmController.Store | app/Http/Controllers/FarmController.php:52-97 | validation errors are returned as computed and change nothing; a failed insert rolls back and flashes the duplicate-number message; a missing list flashes "try again"; success iff the input is valid and every number is fresh, in which case the farm is new, owned by the actor and holds exactly the submitted animals |
| FarmController.InputErrorsEmptyIff | app/Http/Controllers/FarmController.php:59-62 | the list's field errors are empty iff every item has an integer number, a type and a null or 0..20 integer age |
| FarmController.InsertBatchSucceedsIff | app/Http/Controllers/FarmController.php:77-96 | the batch inserts without an integrity violation iff its numbers are pairwise distinct and none is already taken |
| FarmController.InsertBatchResult | app/Http/Controllers/FarmController.php:77-84 | a successful batch keeps every old row, adds one row per item with consecutive new ids, and raises the farm's count by the batch size |
| FarmController.Edited | app/Http/Controllers/FarmController.php:169-172 | the edited farm takes the validated name, e-mail and website and keeps its owner |
| FarmController.ToEntry | app/Http/Controllers/FarmController.php:179-195 | an item with an id updates that animal and one without inserts; the age is stored as `(int)` of the submitted age |
| FarmController.Roster | app/Http/Controllers/FarmController.php:177-198 | the list becomes one roster entry per item, in order |
| FarmController.WriteRoster | app/Http/Controllers/FarmController.php:177-198 | the update loop succeeds iff `ApplyRoster` does, and then leaves exactly the tables `ApplyRoster` computes |
| FarmController.Update | app/Http/Controllers/FarmController.php:132-210 | not found iff the actor does not own the farm; farm-field errors come before list errors; an empty or missing list flashes "no animals"; every failure leaves the tables unchanged; success saves the edited farm and applies the roster |
| FarmController.FarmFieldErrors | app/Http/Controllers/FarmController.php:141-149 | the first validation pass reports only farm fields, and passes iff the name is given, the website is null or a URL, and the e-mail matches the pattern and belongs to no other farm |
| FarmController.PatchErrors | app/Http/Controllers/FarmController.php:152-158 | the `animals` key fails iff the list is null, and every other error names an item of a given list |
| FarmController.PatchErrorsEmptyIff | app/Http/Controllers/FarmController.php:152-158 | the list's errors are empty iff every item has an integer number, a type, an integer or null age, and an id that is null or names an existing animal |
| FarmController.ApplyRoster | app/Http/Controllers/FarmController.php:177-198 | a roster that applies without a refusal advances the id counter by at most one per entry |
| FarmController.RosterKeepsOtherFarms | app/Http/Controllers/FarmController.php:186-190 | the update loop never moves an animal between farms, never touches another farm's animals, and puts every new row on this farm |
| FarmController.RosterCount | app/Http/Controllers/FarmController.php:177-198 | the update loop raises the farm's count by exactly the number of items without an id |
| FarmController.RosterCanExceedCapacity | app/Http/Controllers/FarmController.php:179-185 | a farm with three animals ends with four after an update that adds one item, since the loop checks no cap |
| FarmController.Destroy | app/Http/Controllers/FarmController.php:216-222 | not found iff the actor does not own the farm, with nothing changed; otherwise the farm and exactly its animals are gone |
| FarmAnimalController.Index | app/Http/Controllers/FarmAnimalController.php:17-28 | the listing holds exactly the animals on the actor's farms |
| FarmAnimalController.Show | app/Http/Controllers/FarmAnimalController.php:82-91 | any existing animal is found with its farm, whoever owns it |
| FarmAnimalController.Edit | app/Http/Controllers/FarmAnimalController.php:96-109 | the animal is found iff it is on one of the actor's farms, and every farm is offered |
| FarmAnimalController.StoreErrors | app/Http/Controllers/FarmAnimalController.php:51-56 | `store`'s validation reports only the four fields, and passes iff the number is a non-negative integer no row holds, the type is given, the age is null or in 0..20, and the farm exists |
| FarmAnimalController.RowOf | app/Http/Controllers/FarmAnimalController.php:68-74 | the stored row carries the validated number, type, farm and age, and a missing age becomes null |
| FarmAnimalController.Store | app/Http/Controllers/FarmAnimalController.php:48-77 | validation errors are returned unchanged; a valid request for a farm that already holds three animals is refused on `farm_id`; otherwise the row is inserted under a new id, the farm's count rises by one to at most three, and the cap is preserved |
| FarmAnimalController.UpdateErrors | app/Http/Controllers/FarmAnimalController.php:117-122 | `update`'s validation reports only the four fields, and passes iff the number is given and held by no other row, the type is given, the age is null or in 0..20, and the farm exists |
| FarmAnimalController.Update | app/Http/Controllers/FarmAnimalController.php:114-141 | validation comes before the ownership lookup; a move to a farm that already holds three animals is refused; otherwise the row is overwritten in place; the cap is preserved |
| FarmAnimalController.Destroy | app/Http/Controllers/FarmAnimalController.php:146-157 | not found iff the animal is not on one of the actor's farms; otherwise exactly that row is removed and the cap is preserved |
| Forms.ChangedFarm | resources/js/Pages/Farms/FarmCreate.tsx:58-60 | a change event sets the one named farm field and keeps the other two |
| Forms.ValidateNewAnimal | resources/js/Pages/Farms/FarmCreate.tsx:92-103 | the new entry is accepted iff it has a type and a number of digits only that no entry in the list has; each failed check sets its own message: type required, number required, digits only, or unique |
| Forms.KeepOthers | resources/js/Pages/Farms/FarmCreate.tsx:120 | filtering by index shortens the list by one when `index` is in range and keeps its length otherwise |
| Forms.KeepOthersRemovesOne | resources/js/Pages/Farms/FarmCreate.tsx:119-121 | filtering by index drops exactly entry `index` and keeps the rest in order, or keeps the whole list when `index` is out of range |
| Forms.AppendKeepsDistinct | resources/js/Pages/Farms/FarmCreate.tsx:106-116 | appending an entry whose number is not in the list keeps the numbers distinct |
| Forms.RemoveKeepsDistinct | resources/js/Pages/Farms/FarmCreate.tsx:119-121 | removing an entry keeps the numbers distinct |
| Forms.Changed | resources/js/Pages/Farms/FarmEdit.tsx:70-74 | an entry change sets one field and keeps the entry's id |
| Forms.NumberTextRoundTrip | resources/js/Pages/Animals/AnimalCreate.tsx:79 | the decimal text of an integer passes the server's `integer` rule and reads back as the same integer |
| FarmCreate.Validate | resources/js/Pages/Farms/FarmCreate.tsx:63-68 | the farm is refused iff its name or its e-mail address is empty, with one error per empty field |
| FarmCreate.FarmCreatePage.constructor | resources/js/Pages/Farms/FarmCreate.tsx:42-55 | the page starts with empty fields, no animals and closed new-animal fields |
| FarmCreate.FarmCreatePage.HandleFarmChange | resources/js/Pages/Farms/FarmCreate.tsx:58-60 | only the named farm field changes |
| FarmCreate.FarmCreatePage.HandleSubmit | resources/js/Pages/Farms/FarmCreate.tsx:71-79 | the farm with its list is posted iff `validate` finds nothing; otherwise its errors replace the error map |
| FarmCreate.FarmCreatePage.HandleNewAnimalChange | resources/js/Pages/Farms/FarmCreate.tsx:87-89 | only the named field of the pending entry changes |
| FarmCreate.FarmCreatePage.HandleAddAnimal | resources/js/Pages/Farms/FarmCreate.tsx:106-116 | a valid pending entry is appended and the fields are reset and closed, otherwise the errors are shown; the list stays at most three long with distinct numbers |
| FarmCreate.FarmCreatePage.HandleDeleteAnimal | resources/js/Pages/Farms/FarmCreate.tsx:119-121 | entry `index` is dropped and the page invariant is kept |
| FarmCreate.FarmCreatePage.ToggleNewAnimalFields | resources/js/Pages/Farms/FarmCreate.tsx:124-133 | the fields flip open or closed, and closing them drops exactly the type and number errors |
| FarmEdit.Stripped | resources/js/Pages/Farms/FarmEdit.tsx:95-98 | an entry keeps its id iff the id is truthy, and all its other fields |
| FarmEdit.SubmittedEntries | resources/js/Pages/Farms/FarmEdit.tsx:95-98 | the submitted list is the page's list in order, each entry stripped |
| FarmEdit.Patch | resources/js/Pages/Farms/FarmEdit.tsx:95-100 | a submitted entry reaches `update` with its id, its empty fields as null, and an age that `(int)` reads back as that age (a blank one as 0) |
| FarmEdit.Request | resources/js/Pages/Farms/FarmEdit.tsx:100 | the put body is the farm's fields, empty ones as null, and the `animals` array of the submitted entries |
| FarmEdit.SubmittedInserts | resources/js/Pages/Farms/FarmEdit.tsx:95-98 | the roster `update` builds from the submitted list inserts for exactly the page's entries without a truthy id |
| FarmEdit.SubmittedUpdateAdds | app/Http/Controllers/FarmController.php:177-201 | a committed update of the page's submission adds one animal to the farm per entry without a truthy id |
| FarmEdit.FarmEditPage.constructor | resources/js/Pages/Farms/FarmEdit.tsx:49-62 | the page starts from the farm's fields and stored list, with the new-animal fields closed |
| FarmEdit.FarmEditPage.HandleFarmChange | resources/js/Pages/Farms/FarmEdit.tsx:65-67 | only the named farm field changes |
| FarmEdit.FarmEditPage.HandleAnimalChange | resources/js/Pages/Farms/FarmEdit.tsx:70-74 | exactly one field of entry `index` changes, and every other entry stays the same |
| FarmEdit.FarmEditPage.HandleDeleteAnimal | resources/js/Pages/Farms/FarmEdit.tsx:106-112 | entry `index` is dropped, and a server delete is sent iff that entry has a truthy id |
| FarmEdit.FarmEditPage.ToggleNewAnimalFields | resources/js/Pages/Farms/FarmEdit.tsx:311 | the new-animal fields flip open or closed and nothing else changes |
| FarmEdit.FarmEditPage.HandleNewAnimalChange | resources/js/Pages/Farms/FarmEdit.tsx:120-122 | only the named field of the pending entry changes |
| FarmEdit.FarmEditPage.HandleAddAnimal | resources/js/Pages/Farms/FarmEdit.tsx:125-135 | a valid pending entry is appended and the fields are reset and closed, otherwise the errors are shown; the list stays at most three long and distinct numbers stay distinct |
| FarmEdit.FarmEditPage.HandleSubmit | resources/js/Pages/Farms/FarmEdit.tsx:91-103 | the farm's fields and the stripped list are always sent, and then the new-animal fields are reset and closed |
| AnimalCreate.ChangedDetails | resources/js/Pages/Animals/AnimalCreate.tsx:51-60 | a change event sets the one named field and keeps the rest |
| AnimalCreate.Validate | resources/js/Pages/Animals/AnimalCreate.tsx:62-71 | a field is flagged iff the farm is unselected, the type or the number is empty, or a typed age lies outside 0..20 |
| AnimalCreate.AnimalCreatePage.constructor | resources/js/Pages/Animals/AnimalCreate.tsx:38-45 | the page starts with every field empty and no errors |
| AnimalCreate.AnimalCreatePage.ReceiveServerErrors | resources/js/Pages/Animals/AnimalCreate.tsx:47-49 | the server's errors replace the error map |
| AnimalCreate.AnimalCreatePage.HandleAnimalChange | resources/js/Pages/Animals/AnimalCreate.tsx:51-60 | the named field changes, and its error and no other is dropped |
| AnimalCreate.AnimalCreatePage.HandleSubmit | resources/js/Pages/Animals/AnimalCreate.tsx:73-81 | the animal is posted iff `validate` finds nothing; otherwise its errors replace the error map |
| AnimalCreate.Payload | resources/js/Pages/Animals/AnimalCreate.tsx:79 | the posted request carries the form's fields, each empty field as null, and the selected farm |
| AnimalCreate.ServerAcceptedPassesValidate | resources/js/Pages/Animals/AnimalCreate.tsx:62-71 | the page never holds back an animal that the server's `store` validation accepts |
| AnimalCreate.ValidateWeakerThanServer | resources/js/Pages/Animals/AnimalCreate.tsx:62-71 | the page lets through a non-numeric number that the server refuses |
| AnimalEdit.InitialDetails | resources/js/Pages/Animals/AnimalEdit.tsx:44-49 | the form starts from the stored animal, but a stored age of 0 becomes an empty box and a falsy farm becomes the first farm offered |
| AnimalEdit.Payload | resources/js/Pages/Animals/AnimalEdit.tsx:72-80 | the update request carries the form's fields, each empty field as null, and the selected farm |
| AnimalEdit.UntouchedEditStoresAge | resources/js/Pages/Animals/AnimalEdit.tsx:44-49 | for a stored row with a digits-only number and an age in 0..20, saving the form unchanged passes the page's check and the server's `update` validation, keeps the animal on its farm, and writes back the stored row, except that an age of 0 becomes null |
| AnimalEdit.UntouchedEditRefusesStoredAgeOutOfRange | app/Http/Controllers/FarmAnimalController.php:120 | a stored age outside 0..20, which the farm update accepts, makes the unchanged save fail the `years` rule |
| AnimalEdit.ValidateAnimal | resources/js/Pages/Animals/AnimalEdit.tsx:60-69 | the type is flagged iff it is empty, and the number iff it is not digits only, with the matching message |
| AnimalEdit.ChangedDetails | resources/js/Pages/Animals/AnimalEdit.tsx:55-57 | a change event sets the one named field and keeps the rest |
| AnimalEdit.AnimalEditPage.constructor | resources/js/Pages/Animals/AnimalEdit.tsx:44-52 | the page starts from `InitialDetails` with no errors |
| AnimalEdit.AnimalEditPage.HandleAnimalChange | resources/js/Pages/Animals/AnimalEdit.tsx:55-57 | only the named field changes |
| AnimalEdit.AnimalEditPage.HandleSubmit | resources/js/Pages/Animals/AnimalEdit.tsx:72-80 | the update is sent iff `validateAnimal` finds nothing, so what is sent has a type and a number of digits only; otherwise the errors are shown |

## Left out

- FarmController.Index: the listing is the actor's farms; the animals `with('animals')` loads for each of them are not part of the result.
- Rendering, redirects, flash wording, Inertia props and pagination are not modelled. `paginate(10)` is modelled as the whole result set.
- The `create` actions of both controllers are not modelled. They only render a form listing the actor's farms.
- The `.jsx` versions of the pages are not modelled; the `.tsx` pages replaced them.
- Authentication, routing and route-parameter parsing are not modelled. Record ids are natural numbers, and a non-numeric id in a URL is not modelled.
- Concurrency is not modelled. Each action runs alone, so the gap between the capacity check and the insert is not modelled.
- Laravel's `TrimStrings` middleware is not modelled. `ConvertEmptyStringsToNull` is modelled as `Input.Nullable`.
- The `email`, `url` and `regex` validation rules are opaque predicates: the model does not define which texts they accept.
- Absent request keys are modelled as null. In the source, an absent `website` key or an absent element `years` key is missing from the validated array. Reading it inside `FarmController::store` or `update` raises an error, and the transaction is rolled back. In `FarmAnimalController::update` an absent `years` key is left out of `$animal->update($validated)`, so the stored age is kept; `FarmAnimalController.RowOf` writes null instead (the animal pages always send `years`).
- Schema.Database.RollBack: also restores the id counters. A MySQL auto-increment keeps advancing after a rollback, so later ids differ; ids are opaque everywhere else in the model.
- Schema.Database.CreateAnimal: a refused insert leaves the id counter where it was. A MySQL auto-increment also uses up a value on an insert the unique index or the foreign key refuses.
- Store-level failures other than integrity violations are not modelled, for example a lost connection.
- AnimalCreate.Payload, AnimalEdit.Payload: an age box holds an integer and is sent as its plain decimal text. The box actually keeps the typed text, so `05`, `+5`, a fraction or an exponent form reach the server as typed, and the `integer` rule refuses them. Those inputs are not modelled.
- Input.IsIntegerText: accepts integers of any size. PHP's `FILTER_VALIDATE_INT` refuses values outside the 64-bit range and allows surrounding whitespace.
- A `farm_id` that is not an integer is not modelled. The `exists` rule compares the text with the stored ids, and the model takes `farm_id` as an integer or nothing.
- FarmAnimalController.Update: the strict `!==` between the stored `farm_id` and the submitted one is modelled as plain id inequality. When the page sends the id as text, PHP treats equal ids as different, and the capacity check then also runs for an animal that stays on its farm. The model does not capture that case.
- The `created_at` and `updated_at` timestamps are not modelled.
- The seeders, factories, dashboard and tests are not modelled.
