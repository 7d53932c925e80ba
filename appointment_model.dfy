/**
 * The Appointment schema. `userId` and `title` are required, `completed`
 * defaults to false, `description`, `deadline`, `petId` and `petName` are
 * optional. `petId` is a reference to a PetProfile `_id`; `petName` is a
 * plain copy of the pet's name. `petAge` and `petBreed` are not declared by
 * the schema, but the controller writes them, so the record carries them.
 */
module AppointmentModel {
  import opened Wrappers
  import opened Js

  datatype Appointment = Appointment(
    id: Id,                    // _id
    userId: Id,                // required reference to the owning User
    title: string,             // required
    description: Option<string>,
    completed: bool,           // default false
    deadline: Option<string>,  // a Date, kept as the text the client sent
    petId: Option<Id>,         // reference to a PetProfile
    petName: Option<string>,   // copy of the pet's display name
    petAge: Option<int>,       // written by the controller, not declared
    petBreed: Option<string>   // written by the controller, not declared
  )

  /** The value `completed` takes when a document is created without it. */
  const DefaultCompleted := false

  /** `{ type: String, required: true }`: a title must be a non-empty string. */
  predicate TitleAccepted(title: Input<string>) {
    Truthy(title, "")
  }

  /** What `save` validates on a stored record: the required title is present. */
  predicate Valid(a: Appointment) {
    a.title != ""
  }

  /** `Appointment.create` with the given paths: a record is only created
      with its required title, and `completed`, which `create` is never
      given, takes the schema's default. */
  function Create(id: Id, userId: Id, title: string, description: Option<string>, deadline: Option<string>,
                  petId: Option<Id>, petName: Option<string>, petAge: Option<int>, petBreed: Option<string>)
    : (r: Appointment)
    requires title != ""
    ensures Valid(r) && r.completed == DefaultCompleted
    ensures r.id == id && r.userId == userId && r.title == title
    ensures r.description == description && r.deadline == deadline
    ensures r.petId == petId && r.petName == petName && r.petAge == petAge && r.petBreed == petBreed
  {
    Appointment(id, userId, title, description, DefaultCompleted, deadline, petId, petName, petAge, petBreed)
  }

  /** None of the four pet fields holds a falsy value. */
  predicate PetFieldsNormalised(a: Appointment) {
    && a.petId != Some("")
    && a.petName != Some("")
    && a.petAge != Some(0)
    && a.petBreed != Some("")
  }
}
