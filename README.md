# Petclinic appointments: a Dafny model

This project models the appointment and pet-profile logic of the petclinic
web application. It covers:

- the Express/Mongoose controllers that store appointments and pet profiles;
- the two Mongoose schemas behind them;
- the React components that build the appointment and task requests and keep
  the lists on screen in step with the server's replies.

The database is an in-memory table held in a `class`. The handlers that
write become methods that change the table, and a method's `ensures` give the
whole new table and the HTTP status and body of the reply. The handlers that
only read (`ListByUser`, `ListByUserAndPet` and the pet store's `List`)
become functions of the table that return the reply. For the
components, the component state is a `class` whose fields are the React
state variables. Each handler is a method whose `ensures` give the new state
in terms of pure functions: the payload, the list replace/append/delete and
the pet snapshot. Lemmas state the properties of those functions.

Modules:

- `Js`: JavaScript value semantics the code relies on.
  - A request-body field is `Absent` (undefined), `Null` or `Value(v)`.
  - Truthiness uses the one falsy value of each field type.
  - `||`, `??` and `!== undefined ? :` are written out as functions.
- `JsStrings`: the string built-ins the components use. These are
  `toLowerCase`, `includes`, `toString` on integers, `padStart` and the `<`
  order on strings.
- `ListOps`: `filter`, the `map` that swaps in an edited element by `_id`,
  the delete filter, and append.
- `AppointmentModel` / `PetProfileModel`: the two schemas, with their
  required and default paths.
  - A pet document is kept as a JSON object, so that fields the schema does
    not declare stay visible.
  - `Validate` is the required-path check, applied to that object.
- `AppointmentController` / `PetProfileController`: the handlers over the
  in-memory collections, including the update merge, `populate` as a lookup
  in the pet collection, 404 handling and the owner-scoped queries.
- `Scheduling`: what the two forms share. That is the 96 quarter-hour time
  options and the `deadline` built from the date and time inputs.
- `AppointmentForm`, `AppointmentList`, `TaskForm`: the three components.
  The lemmas at the end of `AppointmentForm` and `AppointmentList` follow a
  form action through the request body to the stored record and back to the
  label the list shows.

Some behaviour is absent from the code, and so from the model:

- Update and delete look an appointment up by id alone and compare no owner.
- No code updates or deletes a pet, so no change reaches the appointments
  that reference one.
- The pet list is returned unsorted.
- The `age` path accepts any number, negative or fractional.

## Model

| member | source | states |
|---|---|---|
| `AppointmentModel.Create` | backend/models/Appointment.js:3-12 | A created record carries the required non-empty title, takes `completed = false` from the schema default, and stores the other paths as given |
| `AppointmentController.NewAppointment` | backend/controllers/appointmentController.js:18-27 | The owner is the authenticated user and `completed` is the default. Each pet field is stored exactly when it is truthy, so falsy values including age 0 become null. `description` and `deadline` are stored when present |
| `AppointmentController.Merge` | backend/controllers/appointmentController.js:44-51 | `id` and owner are kept. `title`, `description` and `deadline` are replaced only by a truthy value. `completed` is replaced by any non-null value, including `false`. The four pet fields: kept when undefined, cleared by null, replaced otherwise. A valid record stays valid |
| `AppointmentController.MergeEmptyBody` | backend/controllers/appointmentController.js:44-51 | An update with an empty body leaves every field unchanged |
| `AppointmentController.MergeIdempotent` | backend/controllers/appointmentController.js:44-51 | Repeating an update has no further effect |
| `AppointmentController.MergeNeverClearsText` | backend/controllers/appointmentController.js:44-47 | A set title, description or deadline can never be cleared by an update |
| `AppointmentController.MergeThen` | backend/controllers/appointmentController.js:44-51 | Two successive updates equal the single update with their combined body |
| `AppointmentController.Populate` | backend/controllers/appointmentController.js:30 | The reply's `petId` is the pet exactly when the reference resolves in the pet collection, and null otherwise; the record itself is unchanged |
| `AppointmentController.PopulateIsLive` | backend/models/Appointment.js:10-11 | `petId` is a reference, so the reply follows the live pet, while the copied `petName` is returned as stored |
| `AppointmentController.UserRecords` | backend/controllers/appointmentController.js:6 | The query returns exactly the records whose owner is the caller |
| `AppointmentController.UserPetRecords` | backend/controllers/appointmentController.js:78-81 | The query returns exactly the caller's records that reference the given pet, a subset of the caller's records |
| `AppointmentController.InsertIsolated` | backend/controllers/appointmentController.js:18-19 | Creating a record for one user leaves every other user's query result unchanged |
| `AppointmentController.RemoveFromQuery` | backend/controllers/appointmentController.js:68 | Deleting a record removes exactly that record from its owner's query result |
| `AppointmentController.AppointmentStore.Add` | backend/controllers/appointmentController.js:15-35 | A failure of `create` replies 500 with table unchanged: a store fault, a missing or empty title, or a taken id. Otherwise the table gains exactly the new record. The reply is 201 with it populated, or 500 when the `populate` after the write fails |
| `AppointmentController.AppointmentStore.Update` | backend/controllers/appointmentController.js:38-61 | A store fault replies 500 and an unknown id replies 404 "Appointment not found"; in both the table is unchanged. Otherwise only that record changes, to the merge of the old record and the body. The reply is 200 with it populated, or 500 when the `populate` after the save fails. No owner is compared |
| `AppointmentController.AppointmentStore.Delete` | backend/controllers/appointmentController.js:64-73 | A store fault replies 500 and an unknown id replies 404; in both the table is unchanged. Otherwise exactly that record is removed and the reply is "Appointment deleted". No owner is compared |
| `AppointmentController.AppointmentStore.ListByUser` | backend/controllers/appointmentController.js:4-12 | A store fault replies 500. Otherwise the reply is 200 and holds, populated, every record of the caller and only those |
| `AppointmentController.AppointmentStore.ListByUserAndPet` | backend/controllers/appointmentController.js:76-86 | A store fault replies 500. Otherwise the reply is 200 and holds, unpopulated, every record of the caller referencing the pet and only those |
| `PetProfileModel.Validate` | backend/models/petProfile.js:3-8 | A document passes exactly when it has non-empty `firstName`, `lastName` and `breed` strings and an `age` that is a number or a string of digits; the profile copies them, the age cast to its number. Otherwise the failing required paths are listed, none missing and none extra |
| `PetProfileModel.FormAgeAccepted` | backend/models/petProfile.js:6 | An age sent as the text of a whole number, as the pet forms send it, is accepted and stored as that number |
| `PetProfileModel.BlankAgeRejected` | backend/models/petProfile.js:6 | An age input left empty fails validation, and `age` is among the failing paths |
| `PetProfileModel.Cast` | backend/models/petProfile.js:6 | The stored document is the one built, with an accepted age replaced by the number it denotes and every other field kept |
| `PetProfileModel.CastKeepsProfile` | backend/models/petProfile.js:3-8 | Casting a valid document keeps it valid with the same profile, and casting twice is casting once |
| `PetProfileModel.FormAgeStored` | backend/models/petProfile.js:6 | An age sent as the text of a whole number is stored as that number |
| `PetProfileModel.ValidateToDoc` | backend/models/petProfile.js:3-8 | A conforming profile written as a document validates back to itself |
| `PetProfileModel.ValidateIgnoresUndeclared` | backend/models/petProfile.js:3-8 | A field other than the four declared paths never changes the verdict or the profile |
| `PetProfileController.OwnedDoc` | backend/controllers/petProfileController.js:6-9 | The stored document holds every body field unchanged, plus `userId` set to the authenticated user |
| `PetProfileController.OwnerCannotBeForged` | backend/controllers/petProfileController.js:6-9 | A `userId` supplied in the body has no effect on the stored document |
| `PetProfileController.OwnerDoesNotAffectValidation` | backend/controllers/petProfileController.js:6-9 | Adding the owner never changes whether the document validates |
| `PetProfileController.CreatedPetIsPrivate` | backend/controllers/petProfileController.js:19 | A pet stored by `Create` for one user is in that user's listing and in no other user's |
| `PetProfileController.PetStore.Create` | backend/controllers/petProfileController.js:3-14 | Every failure replies 400 and leaves the collection unchanged: a store fault, failed required paths (they are listed), or a taken id. Otherwise exactly the owned document is inserted, with its age cast to a number, and the reply is 201 with that stored document |
| `PetProfileController.PetStore.List` | backend/controllers/petProfileController.js:16-23 | A store fault replies 500. Otherwise the reply is 200 with every stored pet owned by the caller and only those |
| `PetProfileController.PetStore.Profiles` | backend/models/petProfile.js:3-8 | The typed profiles `populate` reads: one per stored document, each the one validation produced, under its own id |
| `JsStrings.Lower` | frontend/src/components/AppointmentForm.jsx:249-251 | Lower-casing keeps length and folds each character on its own |
| `JsStrings.LowerIdempotent` | frontend/src/components/AppointmentForm.jsx:249-251 | Lower-casing a lower-cased string changes nothing |
| `JsStrings.IncludesAt` | frontend/src/components/AppointmentForm.jsx:249-251 | `includes` holds exactly when the needle occurs at some index |
| `JsStrings.IncludesEmpty` | frontend/src/components/AppointmentForm.jsx:249-251 | Every string includes the empty string |
| `JsStrings.Decimal` | frontend/src/components/AppointmentForm.jsx:163-164 | `toString` of a non-negative integer is a non-empty run of digits without a leading zero, one digit exactly below 10 |
| `JsStrings.DecimalRoundTrip` | frontend/src/components/AppointmentForm.jsx:163-164 | Reading back those digits gives the number |
| `JsStrings.IntToString` | frontend/src/components/AppointmentList.jsx:38 | `toString` of an integer starts with `-` exactly when it is negative; a non-negative integer gives its decimal form, and a negative one gives `-` followed by the decimal form of its magnitude |
| `JsStrings.PadStart` | frontend/src/components/AppointmentForm.jsx:163-164 | The result has the target width (or the input's length if longer), ends with the input, and is padded with the fill character |
| `JsStrings.TwoDigits` | frontend/src/components/AppointmentForm.jsx:163-164 | Padding the decimal form of any number below 100 to width 2 gives its two digits |
| `JsStrings.BelowAt` | frontend/src/components/AppointmentForm.jsx:161-172 | Strings that agree up to a position and differ there are ordered by that character |
| `ListOps.Filter` | frontend/src/components/AppointmentForm.jsx:248-252 | The result is no longer than the input; it holds only kept elements of the input and every kept element |
| `ListOps.FilterAppend` | frontend/src/components/AppointmentForm.jsx:248-252 | Filtering a concatenation filters each part in order |
| `ListOps.FilterKeepsAll` | frontend/src/components/AppointmentForm.jsx:248-252 | A filter that keeps every element returns the array unchanged |
| `ListOps.FilterAgree` | frontend/src/components/AppointmentForm.jsx:248-252 | Filters that agree on every element give the same result |
| `ListOps.ReplaceById` | frontend/src/components/AppointmentForm.jsx:106-108 | The length is unchanged. Every element with the response's `_id` becomes the response, and every other element stays in place |
| `ListOps.ReplaceMissing` | frontend/src/components/TaskForm.jsx:39 | A response whose `_id` is not in the list changes nothing |
| `ListOps.ReplaceIdempotent` | frontend/src/components/TaskForm.jsx:39 | Applying the same response twice is applying it once |
| `ListOps.DeleteById` | frontend/src/components/AppointmentList.jsx:13 | No element with the id survives, every survivor comes from the old list, and every other element survives |
| `ListOps.DeleteMissing` | frontend/src/components/AppointmentList.jsx:13 | Deleting an absent id changes nothing |
| `ListOps.DeleteIdempotent` | frontend/src/components/AppointmentList.jsx:13 | Deleting twice is deleting once |
| `ListOps.DeleteAppend` | frontend/src/components/AppointmentList.jsx:13 | The survivors keep their original order |
| `ListOps.DeleteAfterReplace` | frontend/src/components/AppointmentList.jsx:13 | Deleting an edited element gives the same list as deleting it before the edit |
| `ListOps.Append` | frontend/src/components/AppointmentForm.jsx:113 | The response is the new last element and nothing before it moves |
| `Scheduling.Deadline` | frontend/src/components/AppointmentForm.jsx:87-89 | The deadline is `''` unless both date and time are non-empty, and the converted `date + "T" + time` otherwise |
| `Scheduling.TimeOptions` | frontend/src/components/AppointmentForm.jsx:161-172 | There are 96 options |
| `Scheduling.Hours` | frontend/src/components/AppointmentForm.jsx:161 | There are 24 hour groups, group `h` being hour `h`'s options |
| `Scheduling.FlattenLength` | frontend/src/components/AppointmentForm.jsx:161-172 | Rendering groups of four gives four options per group |
| `Scheduling.FlattenFour` | frontend/src/components/AppointmentForm.jsx:161-172 | Rendered option `k` is option `k % 4` of group `k / 4` |
| `Scheduling.TimeOptionsIndex` | frontend/src/components/AppointmentForm.jsx:161-172 | The option at quarter `q` of hour `h` sits at index `4h + q` |
| `Scheduling.HourOptionsAt` | frontend/src/components/AppointmentForm.jsx:162-165 | Quarter `q` of hour `h` is labelled with the hour and minute `0, 15, 30, 45`, each as two digits |
| `Scheduling.OptionLabelIsClock` | frontend/src/components/AppointmentForm.jsx:163-165 | The padded label of an hour and a minute below 100 is `HH:MM` |
| `Scheduling.TimeOptionsAt` | frontend/src/components/AppointmentForm.jsx:161-172 | Option `4h + q` is `HH:MM` for hour `h` and minute `15q`, both zero-padded |
| `Scheduling.ClockBelow` | frontend/src/components/AppointmentForm.jsx:161-172 | Of two `HH:MM` labels, the one with the earlier hour, or with the same hour and a smaller tens digit of the minute, is the smaller string |
| `Scheduling.SlotOrder` | frontend/src/components/AppointmentForm.jsx:161-172 | An earlier quarter-hour slot has the smaller label |
| `Scheduling.TimeOptionsAscending` | frontend/src/components/TaskForm.jsx:83-94 | The options are in strictly ascending string order |
| `AppointmentForm.FilterPets` | frontend/src/components/AppointmentForm.jsx:248-252 | The listed pets are exactly those whose lower-cased first name, last name or breed contains the lower-cased term, taken from the fetched list |
| `AppointmentForm.AppointmentFormState.ListedPets` | frontend/src/components/AppointmentForm.jsx:248-252 | The modal lists only fetched pets matching the current term, every matching pet, and every pet while the term is empty |
| `AppointmentForm.EmptySearchKeepsAll` | frontend/src/components/AppointmentForm.jsx:248-252 | An empty term lists every pet in order |
| `AppointmentForm.SearchIgnoresCase` | frontend/src/components/AppointmentForm.jsx:248-252 | Terms that differ only in case list the same pets |
| `AppointmentForm.SearchKeepsOrder` | frontend/src/components/AppointmentForm.jsx:248-252 | The search keeps the fetched order |
| `AppointmentForm.SearchFindsSubstring` | frontend/src/components/AppointmentForm.jsx:248-252 | A pet whose name or breed contains the term at some position, ignoring case, is listed |
| `AppointmentForm.WithPet` | frontend/src/components/AppointmentForm.jsx:53-60 | Selecting a pet sets `petId`, `petName = firstName + " " + lastName`, `petAge` and `petBreed`, and keeps title, description, date and time |
| `AppointmentForm.WithoutPet` | frontend/src/components/AppointmentForm.jsx:206 | "Remove" clears the four pet fields and keeps the others |
| `AppointmentForm.RemoveUndoesSelect` | frontend/src/components/AppointmentForm.jsx:206 | Removing a selected pet gives the same form as never selecting it |
| `AppointmentForm.SelectLastWins` | frontend/src/components/AppointmentForm.jsx:53-60 | Selecting twice is the same as selecting the second pet |
| `AppointmentForm.Payload` | frontend/src/components/AppointmentForm.jsx:87-99 | Title and description are sent as typed, and `completed` is not sent. `deadline` follows `Deadline`. Each empty pet field, and an age of 0, is sent as null |
| `AppointmentForm.RemoveThenSaveUnlinks` | frontend/src/components/AppointmentForm.jsx:95-98 | Saving an edit after "Remove" clears all four pet fields on the server |
| `AppointmentForm.FormEditLimits` | frontend/src/components/AppointmentForm.jsx:91-99 | A form edit never changes `completed`, never clears a stored description, and keeps the deadline when date or time is empty |
| `AppointmentForm.SelectThenCreateStoresSnapshot` | frontend/src/components/AppointmentForm.jsx:53-60 | Creating from a form with a selected pet stores the pet's reference, its non-empty joined name, its age unless 0, and its breed unless empty |
| `AppointmentForm.AppointmentFormState.EditingCleared` | frontend/src/components/AppointmentForm.jsx:36-38 | Clearing the edited appointment empties the form and changes nothing else |
| `AppointmentForm.AppointmentFormState.SelectPet` | frontend/src/components/AppointmentForm.jsx:53-62 | The form takes the pet snapshot and the search modal closes; nothing else changes |
| `AppointmentForm.AppointmentFormState.PetCreated` | frontend/src/components/AppointmentForm.jsx:64-74 | The form takes the new pet's snapshot and the new-pet modal closes; nothing else changes |
| `AppointmentForm.AppointmentFormState.RemovePet` | frontend/src/components/AppointmentForm.jsx:206 | Only the form changes, to the form without the pet |
| `AppointmentForm.AppointmentFormState.Submit` | frontend/src/components/AppointmentForm.jsx:85-120 | It sends PUT to the edited id or POST, with the payload. On success the list is replaced-by-id or appended to, the form is emptied and editing ends; on failure nothing changes |
| `AppointmentList.PatientLabel` | frontend/src/components/AppointmentList.jsx:32-44 | The label is shown exactly when `petName` or `petId` is truthy. A populated pet gives `(first last, age, breed)`. Else a truthy age and breed give `(petName, petAge, petBreed)`. Else it is `petName` alone |
| `AppointmentList.LiveDataWins` | frontend/src/components/AppointmentList.jsx:37-38 | With a populated pet, the stored copy plays no part in the label |
| `AppointmentList.LabelOfLivePet` | frontend/src/components/AppointmentList.jsx:37-38 | A record whose pet still exists is labelled with the pet's current data |
| `AppointmentList.LabelOfMissingPet` | frontend/src/components/AppointmentList.jsx:40-43 | A record whose pet is gone is labelled from the stored copy |
| `AppointmentList.CreatedWithPetIsLabelled` | frontend/src/components/AppointmentList.jsx:32 | An appointment created with a selected pet is always labelled, even after the pet is gone |
| `AppointmentList.AppointmentListState.HandleDelete` | frontend/src/components/AppointmentList.jsx:7-18 | A request is sent exactly when confirmed. After a confirmed, successful delete the list is the old list without that id; otherwise it is unchanged |
| `TaskForm.Payload` | frontend/src/components/TaskForm.jsx:26-33 | Title and description are sent as typed; `deadline` is `''` unless both date and time are set |
| `TaskForm.TaskFormState.EditingCleared` | frontend/src/components/TaskForm.jsx:18-19 | Clearing the edited task empties the form and keeps the list |
| `TaskForm.TaskFormState.Submit` | frontend/src/components/TaskForm.jsx:23-51 | It sends PUT to the edited id or POST, with the payload. On success the list is replaced-by-id or appended to, the form is emptied and editing ends; on failure nothing changes |

## Left out

- Network, Express and authentication are outside the model. The controllers receive the authenticated user's id as a parameter. Routes, the `protect` middleware, axios calls and `res.status`/`res.json` are not modelled; replies are a status and body value.
- Database failures (the `catch` branches) are parameters. `fault` is a failure before any write. `populateFault` is a failure of the `populate` that `Add` and `Update` await after writing, which replies 500 with the write kept. A generated ObjectId is also a parameter. Taking an id that is already in use is modelled as a duplicate-key error.
- Mongoose type casting is modelled only for the `age` path: a number, or a string of decimal digits, which is the age the pet forms send. `Validate` reads such a string as its number, and `PetStore.Create` stores and replies with the cast number. Other casts are not modelled.
  - `PetProfileModel.Validate` rejects other numeric text as an age, such as `"-3"`, `"3.5"` or `" 3"`, where Mongoose would cast it. It also rejects a boolean age, which Mongoose would cast to 1 or 0, and a number or boolean sent for a string path, which Mongoose would cast to a string.
  - `deadline` is kept as the text sent, not cast to a `Date`.
  - A `CastError` on a malformed id is not modelled.
- Mongoose strict mode is not modelled. The controllers write `petAge`, `petBreed` and the pet's `userId`, but the schemas do not declare them. The model keeps every field the controllers write; whether Mongoose discards those three is library behaviour.
  - `PetProfileController.PetStore.List` and `PetProfileController.CreatedPetIsPrivate` describe what the controller code intends, on the assumption that the stored pet keeps its `userId`. With strict mode the field is dropped, since the schema does not declare it; the owner query at backend/controllers/petProfileController.js:19 then matches no stored pet, or, with `strictQuery`, its filter is ignored and every pet matches.
- `AppointmentController.AppointmentStore.ListByUser`: the reply is the set of matching records. Database order is not modelled, because the query has no sort.
- `AppointmentController.AppointmentStore.ListByUserAndPet`: the reply is the set of matching records, with no order, for the same reason.
- `PetProfileController.PetStore.List`: the reply is the set of matching documents, with no order, for the same reason.
- `getAppointmentsByPet` is modelled as a store query only. No route exposes it.
- Time-zone and locale conversions are not modelled. The `toISOString` conversion of the deadline is the parameter `toIso`, and the locale date display in the list is not modelled.
- The branch that loads an appointment or task into the form when editing begins (AppointmentForm.jsx:24-35, TaskForm.jsx:10-17) is not modelled, including its date decoding and its copy of a populated `petId` object into the form's id field. No method sets `editing` to an appointment or task; the parent component does. `Submit` is stated for both values of `editing`.
- `toLowerCase` folds ASCII letters only.
- JavaScript numbers are integers here.
- Stored null and undefined are both `None`. So the list's `${petName}` text of a stored pet field that is missing shows `null` where the browser would show `undefined`.
- `fetchPets` and `handleCreateNewPet` are not modelled, and neither is the pet creation sub-form. They are network calls; only their effect on the form (`PetCreated`) is modelled.
- The backend tests stub `remove` and omit `populate`, so they do not match the controller. The model follows the controller.
