/**
 * The appointment list component: the "Patient:" line shown for each
 * appointment and the delete handler's state transition.
 */
module AppointmentList {
  import opened Wrappers
  import opened Js
  import opened JsStrings
  import opened ListOps
  import opened PetProfileModel
  import opened AppointmentModel
  import opened AppointmentController
  import AppointmentForm

  /** Truthiness of `appointment.petId` as the client receives it. */
  predicate PetIdTruthy(p: PetIdView) {
    match p
    case Unset => false
    case Raw(i) => i != ""
    case Resolved(_) => true
  }

  /** `` `(${name}, ${age}, ${breed})` `` */
  function Triple(name: string, age: int, breed: string): string {
    "(" + name + ", " + IntToString(age) + ", " + breed + ")"
  }

  /** `${x}` of a stored field that may be null. */
  function Interpolate(x: Option<string>): string {
    if x.Some? then x.value else "null"
  }

  /** The "Patient:" text, or `None` when the block is not rendered. */
  function PatientLabel(v: AppointmentView): (r: Option<string>)
    ensures r.Some? <==> TruthyStored(v.doc.petName, "") || PetIdTruthy(v.petId)
    ensures r.Some? && v.petId.Resolved? ==>
      r.value == Triple(v.petId.pet.firstName + " " + v.petId.pet.lastName, v.petId.pet.age, v.petId.pet.breed)
    ensures r.Some? && !v.petId.Resolved? && TruthyStored(v.doc.petAge, 0) && TruthyStored(v.doc.petBreed, "") ==>
      r.value == Triple(Interpolate(v.doc.petName), v.doc.petAge.value, v.doc.petBreed.value)
    ensures r.Some? && !v.petId.Resolved? && !(TruthyStored(v.doc.petAge, 0) && TruthyStored(v.doc.petBreed, "")) ==>
      r.value == (if v.doc.petName.Some? then v.doc.petName.value else "")
  {
    if !(TruthyStored(v.doc.petName, "") || PetIdTruthy(v.petId)) then None
    else if v.petId.Resolved? then
      var p := v.petId.pet;
      Some(Triple(p.firstName + " " + p.lastName, p.age, p.breed))
    else if TruthyStored(v.doc.petAge, 0) && TruthyStored(v.doc.petBreed, "") then
      Some(Triple(Interpolate(v.doc.petName), v.doc.petAge.value, v.doc.petBreed.value))
    else
      Some(if v.doc.petName.Some? then v.doc.petName.value else "")
  }

  /** A populated pet takes precedence: the copied name, age and breed on the
      record play no part in the label. */
  lemma LiveDataWins(v: AppointmentView, w: AppointmentView)
    requires v.petId.Resolved? && w.petId == v.petId
    ensures PatientLabel(v) == PatientLabel(w)
  {
  }

  /** Reading back a record whose pet still exists shows the pet's current data. */
  lemma LabelOfLivePet(a: Appointment, pets: map<Id, PetProfile>)
    requires a.petId.Some? && a.petId.value in pets
    ensures var p := pets[a.petId.value];
      PatientLabel(Populate(a, pets)) == Some(Triple(p.firstName + " " + p.lastName, p.age, p.breed))
  {
  }

  /** Reading back a record whose pet is gone falls back to the stored copy. */
  lemma LabelOfMissingPet(a: Appointment, pets: map<Id, PetProfile>)
    requires a.petId.Some? ==> a.petId.value !in pets
    requires TruthyStored(a.petName, "")
    ensures PatientLabel(Populate(a, pets)) == Some(
      if TruthyStored(a.petAge, 0) && TruthyStored(a.petBreed, "")
      then Triple(a.petName.value, a.petAge.value, a.petBreed.value)
      else a.petName.value)
  {
  }

  /** An appointment created from the form with a selected pet that has since
      been deleted still shows the pet: its snapshot name is never empty. */
  lemma CreatedWithPetIsLabelled(id: Id, user: Id, f: AppointmentForm.FormData, pet: PetProfile,
                                 toIso: string -> string, pets: map<Id, PetProfile>)
    requires f.title != ""
    ensures PatientLabel(Populate(NewAppointment(id, user,
      AppointmentForm.Payload(AppointmentForm.WithPet(f, pet), toIso)), pets)).Some?
  {
    AppointmentForm.SelectThenCreateStoresSnapshot(id, user, f, pet, toIso);
  }

  class AppointmentListState {
    var appointments: seq<AppointmentView>

    constructor (appointments: seq<AppointmentView>)
      ensures this.appointments == appointments
    {
      this.appointments := appointments;
    }

    /** `handleDelete`: ask, send the request, and on success drop every
        element with that id. `sent` says whether a request was sent. */
    method HandleDelete(id: Id, confirmed: bool, succeeded: bool) returns (sent: bool)
      modifies this
      ensures sent == confirmed
      ensures confirmed && succeeded ==> appointments == DeleteById(old(appointments), AppointmentForm.ViewKey, id)
      ensures !(confirmed && succeeded) ==> appointments == old(appointments)
    {
      sent := confirmed;
      if confirmed && succeeded {
        appointments := DeleteById(appointments, AppointmentForm.ViewKey, id);
      }
    }
  }
}
