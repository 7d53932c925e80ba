/**
 * The appointment form component: the pet search filter, the pet snapshot
 * that selecting (or creating) a pet copies into the form, "Remove", the
 * request payload, and the state transition of a submit. What the form
 * sends is the body the appointment controller receives, so the lemmas at
 * the end follow a form action through to the stored record.
 */
module AppointmentForm {
  import opened Wrappers
  import opened Js
  import opened JsStrings
  import opened ListOps
  import opened PetProfileModel
  import opened Scheduling
  import opened AppointmentModel
  import opened AppointmentController

  /** The form state. Every field starts as `''`; `petAge` holds either `''`
      (`None`) or the number copied from a pet. */
  datatype FormData = FormData(
    title: string, description: string, date: string, time: string,
    petId: string, petName: string, petAge: Option<int>, petBreed: string)

  const EmptyForm := FormData("", "", "", "", "", "", None, "")

  // ----- pet search -----

  /** The search criterion: the lower-cased term occurs in the lower-cased
      first name, last name or breed. */
  predicate PetMatches(p: PetProfile, term: string) {
    var t := Lower(term);
    Includes(Lower(p.firstName), t) || Includes(Lower(p.lastName), t) || Includes(Lower(p.breed), t)
  }

  /** `pets.filter(...)` as the search modal lists them. */
  function FilterPets(pets: seq<PetProfile>, term: string): (r: seq<PetProfile>)
    ensures |r| <= |pets|
    ensures forall i :: 0 <= i < |r| ==> r[i] in pets && PetMatches(r[i], term)
    ensures forall i :: 0 <= i < |pets| && PetMatches(pets[i], term) ==> pets[i] in r
  {
    Filter(pets, p => PetMatches(p, term))
  }

  /** An empty search term lists every pet, in order. */
  lemma EmptySearchKeepsAll(pets: seq<PetProfile>)
    ensures FilterPets(pets, "") == pets
  {
    forall i | 0 <= i < |pets| ensures PetMatches(pets[i], "") {
      IncludesEmpty(Lower(pets[i].firstName));
    }
    FilterKeepsAll(pets, p => PetMatches(p, ""));
  }

  /** Search terms that differ only in letter case give the same list. */
  lemma SearchIgnoresCase(pets: seq<PetProfile>, t1: string, t2: string)
    requires Lower(t1) == Lower(t2)
    ensures FilterPets(pets, t1) == FilterPets(pets, t2)
  {
    FilterAgree(pets, p => PetMatches(p, t1), p => PetMatches(p, t2));
  }

  /** The search keeps the fetched order: it filters each part of a list separately. */
  lemma SearchKeepsOrder(a: seq<PetProfile>, b: seq<PetProfile>, term: string)
    ensures FilterPets(a + b, term) == FilterPets(a, term) + FilterPets(b, term)
  {
    FilterAppend(a, b, p => PetMatches(p, term));
  }

  /** A pet whose first name, last name or breed contains the term at some
      position, ignoring case, is listed. */
  lemma SearchFindsSubstring(pets: seq<PetProfile>, k: nat, term: string, at: int)
    requires k < |pets|
    requires OccursAt(Lower(pets[k].firstName), Lower(term), at)
          || OccursAt(Lower(pets[k].lastName), Lower(term), at)
          || OccursAt(Lower(pets[k].breed), Lower(term), at)
    ensures pets[k] in FilterPets(pets, term)
  {
    var p := pets[k];
    IncludesAt(Lower(p.firstName), Lower(term));
    IncludesAt(Lower(p.lastName), Lower(term));
    IncludesAt(Lower(p.breed), Lower(term));
  }

  // ----- pet snapshot -----

  /** `handleSelectPet` / `handlePetCreated`: copy the pet into the form. */
  function WithPet(f: FormData, pet: PetProfile): (r: FormData)
    ensures r.petId == pet.id && r.petName == pet.firstName + " " + pet.lastName
    ensures r.petAge == Some(pet.age) && r.petBreed == pet.breed
    ensures r.title == f.title && r.description == f.description
    ensures r.date == f.date && r.time == f.time
  {
    f.(petId := pet.id, petName := pet.firstName + " " + pet.lastName,
       petAge := Some(pet.age), petBreed := pet.breed)
  }

  /** "Remove": clear the four pet fields and nothing else. */
  function WithoutPet(f: FormData): (r: FormData)
    ensures r.petId == "" && r.petName == "" && r.petAge == None && r.petBreed == ""
    ensures r.title == f.title && r.description == f.description
    ensures r.date == f.date && r.time == f.time
  {
    f.(petId := "", petName := "", petAge := None, petBreed := "")
  }

  /** Removing a selected pet restores the form to "no pet" whatever pet it was. */
  lemma RemoveUndoesSelect(f: FormData, pet: PetProfile)
    ensures WithoutPet(WithPet(f, pet)) == WithoutPet(f)
  {
  }

  /** The last pet selected is the one the form holds. */
  lemma SelectLastWins(f: FormData, p: PetProfile, q: PetProfile)
    ensures WithPet(WithPet(f, p), q) == WithPet(f, q)
  {
  }

  // ----- payload -----

  /** The body `handleSubmit` sends: empty pet fields become null, the
      deadline is `''` unless both date and time are set, `completed` is not sent. */
  function Payload(f: FormData, toIso: string -> string): (b: Body)
    ensures b.title == Value(f.title) && b.description == Value(f.description)
    ensures b.completed == Absent
    ensures b.deadline == Value(Deadline(f.date, f.time, toIso))
    ensures b.petId == if f.petId == "" then Null else Value(f.petId)
    ensures b.petName == if f.petName == "" then Null else Value(f.petName)
    ensures b.petAge == if f.petAge.None? || f.petAge == Some(0) then Null else Value(f.petAge.value)
    ensures b.petBreed == if f.petBreed == "" then Null else Value(f.petBreed)
  {
    Body(
      Value(f.title), Value(f.description), Absent, Value(Deadline(f.date, f.time, toIso)),
      if f.petId == "" then Null else Value(f.petId),
      if f.petName == "" then Null else Value(f.petName),
      match f.petAge case None => Null case Some(n) => if n == 0 then Null else Value(n),
      if f.petBreed == "" then Null else Value(f.petBreed))
  }

  /** Saving an edit after "Remove" unlinks the pet on the server. */
  lemma RemoveThenSaveUnlinks(a: Appointment, f: FormData, toIso: string -> string)
    ensures var r := Merge(a, Payload(WithoutPet(f), toIso));
      r.petId == None && r.petName == None && r.petAge == None && r.petBreed == None
  {
  }

  /** An edit from the form never changes `completed`, and can never clear a
      stored description or deadline: an emptied input is sent as `''`, which
      the server ignores. */
  lemma FormEditLimits(a: Appointment, f: FormData, toIso: string -> string)
    ensures Merge(a, Payload(f, toIso)).completed == a.completed
    ensures a.description.Some? ==> Merge(a, Payload(f, toIso)).description.Some?
    ensures f.date == "" || f.time == "" ==> Merge(a, Payload(f, toIso)).deadline == a.deadline
  {
  }

  /** Creating an appointment from a form with a selected pet stores that
      pet's reference and snapshot. The name always gets stored, since the
      joined name contains a space; an age of 0 is stored as null. */
  lemma SelectThenCreateStoresSnapshot(id: Id, user: Id, f: FormData, pet: PetProfile, toIso: string -> string)
    requires f.title != ""
    ensures var r := NewAppointment(id, user, Payload(WithPet(f, pet), toIso));
      && r.petId == (if pet.id == "" then None else Some(pet.id))
      && r.petName == Some(pet.firstName + " " + pet.lastName)
      && r.petAge == (if pet.age == 0 then None else Some(pet.age))
      && r.petBreed == (if pet.breed == "" then None else Some(pet.breed))
  {
    assert (pet.firstName + " " + pet.lastName)[|pet.firstName|] == ' ';
  }

  // ----- component state -----

  /** The request a submit sends. */
  datatype Request = Put(id: Id, body: Body) | Post(body: Body)

  function ViewKey(v: AppointmentView): Id {
    v.doc.id
  }

  class AppointmentFormState {
    var form: FormData
    var appointments: seq<AppointmentView>
    var editing: Option<AppointmentView>
    var pets: seq<PetProfile>
    var searchTerm: string
    var showPetSearch: bool
    var showPetForm: bool

    constructor (appointments: seq<AppointmentView>)
      ensures form == EmptyForm && this.appointments == appointments && editing == None
      ensures pets == [] && searchTerm == "" && !showPetSearch && !showPetForm
    {
      form := EmptyForm;
      this.appointments := appointments;
      editing := None;
      pets := [];
      searchTerm := "";
      showPetSearch := false;
      showPetForm := false;
    }

    /** The effect that runs when `editingAppointment` becomes null: an empty form. */
    method EditingCleared()
      modifies this
      ensures editing == None && form == EmptyForm
      ensures appointments == old(appointments) && pets == old(pets) && searchTerm == old(searchTerm)
      ensures showPetSearch == old(showPetSearch) && showPetForm == old(showPetForm)
    {
      editing := None;
      form := EmptyForm;
    }

    /** The pets the search modal lists (`filteredPets`). */
    function ListedPets(): (r: seq<PetProfile>)
      reads this
      ensures forall i :: 0 <= i < |r| ==> r[i] in pets && PetMatches(r[i], searchTerm)
      ensures forall i :: 0 <= i < |pets| && PetMatches(pets[i], searchTerm) ==> pets[i] in r
      ensures searchTerm == "" ==> r == pets
    {
      EmptySearchKeepsAll(pets);
      FilterPets(pets, searchTerm)
    }

    /** `handleSelectPet`: copy the pet and close the search modal. */
    method SelectPet(pet: PetProfile)
      modifies this
      ensures form == WithPet(old(form), pet) && !showPetSearch
      ensures appointments == old(appointments) && editing == old(editing)
      ensures pets == old(pets) && searchTerm == old(searchTerm) && showPetForm == old(showPetForm)
    {
      form := WithPet(form, pet);
      showPetSearch := false;
    }

    /** `handlePetCreated`: copy the new pet and close the new-pet modal
        (the list refetch that follows is a network call). */
    method PetCreated(pet: PetProfile)
      modifies this
      ensures form == WithPet(old(form), pet) && !showPetForm
      ensures appointments == old(appointments) && editing == old(editing)
      ensures pets == old(pets) && searchTerm == old(searchTerm) && showPetSearch == old(showPetSearch)
    {
      form := WithPet(form, pet);
      showPetForm := false;
    }

    /** The "Remove" button. */
    method RemovePet()
      modifies this`form
      ensures form == WithoutPet(old(form))
    {
      form := WithoutPet(form);
    }

    /** `handleSubmit`. `response` is the server's reply data, or `None`
        when the request failed (an alert, and no state change). */
    method Submit(toIso: string -> string, response: Option<AppointmentView>) returns (request: Request)
      modifies this
      ensures request == if old(editing).Some?
        then Put(old(editing).value.doc.id, Payload(old(form), toIso))
        else Post(Payload(old(form), toIso))
      ensures response.None? ==>
        form == old(form) && appointments == old(appointments) && editing == old(editing)
      ensures response.Some? && old(editing).Some? ==>
        appointments == ReplaceById(old(appointments), ViewKey, response.value)
      ensures response.Some? && old(editing).None? ==>
        appointments == Append(old(appointments), response.value)
      ensures response.Some? ==> form == EmptyForm && editing == None
      ensures pets == old(pets) && searchTerm == old(searchTerm)
      ensures showPetSearch == old(showPetSearch) && showPetForm == old(showPetForm)
    {
      var payload := Payload(form, toIso);
      if editing.Some? {
        request := Put(editing.value.doc.id, payload);
      } else {
        request := Post(payload);
      }
      if response.None? {
        return;
      }
      if editing.Some? {
        appointments := ReplaceById(appointments, ViewKey, response.value);
      } else {
        appointments := Append(appointments, response.value);
      }
      editing := None;
      form := EmptyForm;
    }
  }
}
