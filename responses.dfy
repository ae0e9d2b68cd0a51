/**
 * What a controller action ends in, with the redirects and flash texts
 * reduced to the outcome they report.
 */
module Responses {

  /** An error-bag key: `email`, or `animals.<index>.<name>` for an entry of a nested list. */
  datatype FieldKey = Key(name: string) | EntryKey(index: nat, name: string)

  /** The flash error messages the farm controller redirects back with. */
  datatype Flash =
    | DuplicateNumber  // "An animal with this number already exists in the farm."
    | TryAgain         // "Something went wrong. Please try again."
    | NoAnimals        // "No animals found in request."
    | UpdateFailed     // "Update failed: " followed by the exception's message

  datatype Response<T> =
    | Done(value: T)                   // the success redirect
    | NotFound                         // `findOrFail` found no row: HTTP 404
    | Invalid(errors: set<FieldKey>)   // redirect back with an error bag
    | Failed(flash: Flash)             // redirect back with a flash error
}
