/**
 * The appointment controller over an in-memory collection: create, the
 * field-by-field update merge, delete, and the two queries. The pet
 * collection that `populate` reads is passed in as a table of profiles.
 * A failure of the database itself (the `catch` branches) is the `fault`
 * parameter: when it carries a message, nothing changes and the reply is 500.
 * Create and update await `populate` after writing; a failure there is the
 * `populateFault` parameter, and the reply is 500 with the write done.
 */
module AppointmentController {
  import opened Wrappers
  import opened Js
  import opened AppointmentModel
  import opened PetProfileModel

  /** The fields the handlers destructure from `req.body`. */
  datatype Body = Body(
    title: Input<string>,
    description: Input<string>,
    completed: Input<bool>,
    deadline: Input<string>,
    petId: Input<Id>,
    petName: Input<string>,
    petAge: Input<int>,
    petBreed: Input<string>
  )

  /** `{}` */
  const EmptyBody := Body(Absent, Absent, Absent, Absent, Absent, Absent, Absent, Absent)

  // ----- create -----

  /** The document `addAppointment` creates: the owner from the authenticated
      user, `completed` left to its default, every falsy pet field as null. */
  function NewAppointment(id: Id, user: Id, b: Body): (r: Appointment)
    requires TitleAccepted(b.title)
    ensures r.id == id && r.userId == user && r.title == b.title.v
    ensures Valid(r) && PetFieldsNormalised(r)
    ensures r.completed == DefaultCompleted
    ensures r.description.Some? <==> b.description.Value?
    ensures r.description.Some? ==> r.description.value == b.description.v
    ensures r.deadline.Some? <==> b.deadline.Value?
    ensures r.deadline.Some? ==> r.deadline.value == b.deadline.v
    ensures r.petId.Some? <==> Truthy(b.petId, "")
    ensures r.petName.Some? <==> Truthy(b.petName, "")
    ensures r.petAge.Some? <==> Truthy(b.petAge, 0)
    ensures r.petBreed.Some? <==> Truthy(b.petBreed, "")
    ensures r.petId.Some? ==> r.petId.value == b.petId.v
    ensures r.petName.Some? ==> r.petName.value == b.petName.v
    ensures r.petAge.Some? ==> r.petAge.value == b.petAge.v
    ensures r.petBreed.Some? ==> r.petBreed.value == b.petBreed.v
  {
    Create(id, user, b.title.v, Stored(b.description), Stored(b.deadline),
      OrNull(b.petId, ""), OrNull(b.petName, ""), OrNull(b.petAge, 0), OrNull(b.petBreed, ""))
  }

  // ----- update -----

  /** The record `updateAppointment` saves. Three rules: `title`,
      `description` and `deadline` are replaced only by a truthy value;
      `completed` by any value that is not null or undefined; the four pet
      fields by anything but undefined, so an explicit null clears them. */
  function Merge(a: Appointment, b: Body): (r: Appointment)
    ensures r.id == a.id && r.userId == a.userId
    ensures Valid(a) ==> Valid(r)
    // replace if truthy
    ensures !Truthy(b.title, "") ==> r.title == a.title
    ensures Truthy(b.title, "") ==> r.title == b.title.v
    ensures !Truthy(b.description, "") ==> r.description == a.description
    ensures Truthy(b.description, "") ==> r.description == Some(b.description.v)
    ensures !Truthy(b.deadline, "") ==> r.deadline == a.deadline
    ensures Truthy(b.deadline, "") ==> r.deadline == Some(b.deadline.v)
    // replace unless null or undefined
    ensures b.completed.Value? ==> r.completed == b.completed.v
    ensures !b.completed.Value? ==> r.completed == a.completed
    // replace unless undefined
    ensures b.petId.Absent? ==> r.petId == a.petId
    ensures b.petId.Null? ==> r.petId == None
    ensures b.petId.Value? ==> r.petId == Some(b.petId.v)
    ensures b.petName.Absent? ==> r.petName == a.petName
    ensures b.petName.Null? ==> r.petName == None
    ensures b.petName.Value? ==> r.petName == Some(b.petName.v)
    ensures b.petAge.Absent? ==> r.petAge == a.petAge
    ensures b.petAge.Null? ==> r.petAge == None
    ensures b.petAge.Value? ==> r.petAge == Some(b.petAge.v)
    ensures b.petBreed.Absent? ==> r.petBreed == a.petBreed
    ensures b.petBreed.Null? ==> r.petBreed == None
    ensures b.petBreed.Value? ==> r.petBreed == Some(b.petBreed.v)
  {
    a.(title := OrElse(b.title, "", a.title),
       description := OrElseStored(b.description, "", a.description),
       completed := Coalesce(b.completed, a.completed),
       deadline := OrElseStored(b.deadline, "", a.deadline),
       petId := IfDefined(b.petId, a.petId),
       petName := IfDefined(b.petName, a.petName),
       petAge := IfDefined(b.petAge, a.petAge),
       petBreed := IfDefined(b.petBreed, a.petBreed))
  }

  /** An update with an empty body saves the record unchanged. */
  lemma MergeEmptyBody(a: Appointment)
    ensures Merge(a, EmptyBody) == a
  {
  }

  /** Sending the same update twice has the effect of sending it once. */
  lemma MergeIdempotent(a: Appointment, b: Body)
    ensures Merge(Merge(a, b), b) == Merge(a, b)
  {
  }

  /** A falsy value can never clear `title`, `description` or `deadline`:
      once set, they stay set whatever the body holds. */
  lemma MergeNeverClearsText(a: Appointment, b: Body)
    ensures a.description.Some? ==> Merge(a, b).description.Some?
    ensures a.deadline.Some? ==> Merge(a, b).deadline.Some?
    ensures a.title != "" ==> Merge(a, b).title != ""
  {
  }

  /** The body whose single update does what `b1` followed by `b2` does. */
  function Then(b1: Body, b2: Body): Body {
    Body(
      if Truthy(b2.title, "") then b2.title else b1.title,
      if Truthy(b2.description, "") then b2.description else b1.description,
      if b2.completed.Value? then b2.completed else b1.completed,
      if Truthy(b2.deadline, "") then b2.deadline else b1.deadline,
      if b2.petId.Absent? then b1.petId else b2.petId,
      if b2.petName.Absent? then b1.petName else b2.petName,
      if b2.petAge.Absent? then b1.petAge else b2.petAge,
      if b2.petBreed.Absent? then b1.petBreed else b2.petBreed)
  }

  /** Two successive updates compose into one. */
  lemma MergeThen(a: Appointment, b1: Body, b2: Body)
    ensures Merge(Merge(a, b1), b2) == Merge(a, Then(b1, b2))
  {
  }

  // ----- populate -----

  /** What the client sees in `petId`: null, the raw id (unpopulated), or the
      pet document `populate` put in its place. */
  datatype PetIdView = Unset | Raw(id: Id) | Resolved(pet: PetProfile)

  /** An appointment as serialised in a reply. */
  datatype AppointmentView = AppointmentView(doc: Appointment, petId: PetIdView)

  /** `populate('petId', 'firstName lastName age breed')`: a reference that
      resolves becomes the pet; one that does not becomes null. */
  function Populate(a: Appointment, pets: map<Id, PetProfile>): (v: AppointmentView)
    ensures v.doc == a
    ensures v.petId.Resolved? <==> a.petId.Some? && a.petId.value in pets
    ensures v.petId.Resolved? ==> v.petId.pet == pets[a.petId.value]
    ensures !v.petId.Raw?
  {
    AppointmentView(a,
      match a.petId
      case None => Unset
      case Some(i) => if i in pets then Resolved(pets[i]) else Unset)
  }

  /** A document serialised without `populate`. */
  function Unpopulated(a: Appointment): AppointmentView {
    AppointmentView(a, match a.petId case None => Unset case Some(i) => Raw(i))
  }

  /** The live pet, not the stored copy, is what a reply carries; the copied
      `petName` is returned as stored whatever the pet table holds. */
  lemma PopulateIsLive(a: Appointment, pets: map<Id, PetProfile>, pets': map<Id, PetProfile>)
    requires a.petId.Some? && a.petId.value in pets && a.petId.value in pets'
    requires pets[a.petId.value] != pets'[a.petId.value]
    ensures Populate(a, pets).petId != Populate(a, pets').petId
    ensures Populate(a, pets).doc.petName == Populate(a, pets').doc.petName
  {
  }

  // ----- replies -----

  datatype StoreError =
    | TitleRequired          // schema validation of the required title
    | DuplicateKey(id: Id)   // an `_id` that is already taken
    | Fault(message: string) // the database failed

  datatype Reply =
    | One(item: AppointmentView)
    | Many(items: set<AppointmentView>)
    | Message(text: string)   // `{ message }`
    | Rejected(error: StoreError) // `{ message: error.message }`

  datatype Response = Response(status: int, reply: Reply)

  const NotFound := Response(404, Message("Appointment not found"))
  const Deleted := Response(200, Message("Appointment deleted"))

  // ----- the collection -----

  /** Every record is stored under its own id. */
  predicate KeyedById(table: map<Id, Appointment>) {
    forall k :: k in table ==> table[k].id == k
  }

  /** `find({ userId })` */
  function UserRecords(table: map<Id, Appointment>, user: Id): (r: set<Appointment>)
    ensures forall a :: a in r <==> a in table.Values && a.userId == user
  {
    set a | a in table.Values && a.userId == user
  }

  /** `find({ userId, petId })` */
  function UserPetRecords(table: map<Id, Appointment>, user: Id, petId: Id): (r: set<Appointment>)
    ensures r <= UserRecords(table, user)
    ensures forall a :: a in r <==> a in UserRecords(table, user) && a.petId == Some(petId)
  {
    set a | a in table.Values && a.userId == user && a.petId == Some(petId)
  }

  /** Storing a record for one user leaves every other user's query result as it was. */
  lemma InsertIsolated(table: map<Id, Appointment>, a: Appointment, user: Id)
    requires KeyedById(table) && a.id !in table && a.userId != user
    ensures UserRecords(table[a.id := a], user) == UserRecords(table, user)
  {
    var t := table[a.id := a];
    forall x | x in UserRecords(t, user) ensures x in UserRecords(table, user) {
      var k :| k in t && t[k] == x;
      assert k != a.id;
    }
    forall x | x in UserRecords(table, user) ensures x in UserRecords(t, user) {
      var k :| k in table && table[k] == x;
      assert k != a.id && t[k] == x;
    }
  }

  /** Deleting a record removes exactly that record from its owner's query. */
  lemma RemoveFromQuery(table: map<Id, Appointment>, id: Id)
    requires KeyedById(table) && id in table
    ensures UserRecords(table - {id}, table[id].userId) ==
            UserRecords(table, table[id].userId) - {table[id]}
  {
    var user := table[id].userId;
    var t := table - {id};
    forall x | x in UserRecords(t, user) ensures x in UserRecords(table, user) - {table[id]} {
      var k :| k in t && t[k] == x;
      assert x.id == k != id == table[id].id;
    }
    forall x | x in UserRecords(table, user) - {table[id]} ensures x in UserRecords(t, user) {
      var k :| k in table && table[k] == x;
      assert k != id && t[k] == x;
    }
  }

  class AppointmentStore {
    var table: map<Id, Appointment>

    ghost predicate Valid()
      reads this
    {
      KeyedById(table) && forall k :: k in table ==> AppointmentModel.Valid(table[k])
    }

    constructor ()
      ensures Valid() && table == map[]
    {
      table := map[];
    }

    /** `addAppointment`: create and reply 201 with the populated document.
        `fault` is a failure of `create` itself; `populateFault` a failure of
        the `populate` that follows, when the record is already stored. */
    method Add(user: Id, newId: Id, body: Body, pets: map<Id, PetProfile>,
               fault: Option<string>, populateFault: Option<string>)
      returns (res: Response)
      requires Valid()
      modifies this
      ensures Valid()
      ensures fault.Some? ==> res == Response(500, Rejected(Fault(fault.value))) && table == old(table)
      ensures fault.None? && !TitleAccepted(body.title) ==>
        res == Response(500, Rejected(TitleRequired)) && table == old(table)
      ensures fault.None? && TitleAccepted(body.title) && newId in old(table) ==>
        res == Response(500, Rejected(DuplicateKey(newId))) && table == old(table)
      ensures fault.None? && TitleAccepted(body.title) && newId !in old(table) ==>
        && table == old(table)[newId := NewAppointment(newId, user, body)]
        && res == if populateFault.Some? then Response(500, Rejected(Fault(populateFault.value)))
                  else Response(201, One(Populate(table[newId], pets)))
    {
      if fault.Some? {
        return Response(500, Rejected(Fault(fault.value)));
      }
      if !TitleAccepted(body.title) {
        return Response(500, Rejected(TitleRequired));
      }
      if newId in table {
        return Response(500, Rejected(DuplicateKey(newId)));
      }
      var a := NewAppointment(newId, user, body);
      table := table[newId := a];
      if populateFault.Some? {
        return Response(500, Rejected(Fault(populateFault.value)));
      }
      res := Response(201, One(Populate(a, pets)));
    }

    /** `updateAppointment`: look the record up by id alone (no owner
        comparison), assign the eight fields one by one, save, reply 200.
        `fault` is a failure of `findById` or `save`; `populateFault` a failure
        of the `populate` that follows, when the record is already saved. */
    method Update(id: Id, body: Body, pets: map<Id, PetProfile>,
                  fault: Option<string>, populateFault: Option<string>)
      returns (res: Response)
      requires Valid()
      modifies this
      ensures Valid()
      ensures fault.Some? ==> res == Response(500, Rejected(Fault(fault.value))) && table == old(table)
      ensures fault.None? && id !in old(table) ==> res == NotFound && table == old(table)
      ensures fault.None? && id in old(table) ==>
        && table == old(table)[id := Merge(old(table)[id], body)]
        && res == if populateFault.Some? then Response(500, Rejected(Fault(populateFault.value)))
                  else Response(200, One(Populate(table[id], pets)))
    {
      if fault.Some? {
        return Response(500, Rejected(Fault(fault.value)));
      }
      if id !in table {
        return NotFound;
      }
      var a := table[id];
      a := a.(title := OrElse(body.title, "", a.title));
      a := a.(description := OrElseStored(body.description, "", a.description));
      a := a.(completed := Coalesce(body.completed, a.completed));
      a := a.(deadline := OrElseStored(body.deadline, "", a.deadline));
      a := a.(petId := IfDefined(body.petId, a.petId));
      a := a.(petName := IfDefined(body.petName, a.petName));
      a := a.(petAge := IfDefined(body.petAge, a.petAge));
      a := a.(petBreed := IfDefined(body.petBreed, a.petBreed));
      assert a == Merge(table[id], body);
      table := table[id := a];
      if populateFault.Some? {
        return Response(500, Rejected(Fault(populateFault.value)));
      }
      res := Response(200, One(Populate(a, pets)));
    }

    /** `deleteAppointment`: look the record up by id alone and remove it. */
    method Delete(id: Id, fault: Option<string>) returns (res: Response)
      requires Valid()
      modifies this
      ensures Valid()
      ensures fault.Some? ==> res == Response(500, Rejected(Fault(fault.value))) && table == old(table)
      ensures fault.None? && id !in old(table) ==> res == NotFound && table == old(table)
      ensures fault.None? && id in old(table) ==> res == Deleted && table == old(table) - {id}
    {
      if fault.Some? {
        return Response(500, Rejected(Fault(fault.value)));
      }
      if id !in table {
        return NotFound;
      }
      table := table - {id};
      res := Deleted;
    }

    /** `getAppointments`: the caller's records, each populated. */
    function ListByUser(user: Id, pets: map<Id, PetProfile>, fault: Option<string>): (res: Response)
      reads this
      ensures fault.Some? ==> res == Response(500, Rejected(Fault(fault.value)))
      ensures fault.None? ==> res.status == 200 && res.reply.Many?
      ensures fault.None? ==> forall v :: v in res.reply.items ==>
        v.doc in table.Values && v.doc.userId == user && v == Populate(v.doc, pets)
      ensures fault.None? ==> forall k :: k in table && table[k].userId == user ==>
        Populate(table[k], pets) in res.reply.items
    {
      if fault.Some? then Response(500, Rejected(Fault(fault.value)))
      else Response(200, Many(set a | a in UserRecords(table, user) :: Populate(a, pets)))
    }

    /** `getAppointmentsByPet`: the caller's records that reference `petId`, unpopulated. */
    function ListByUserAndPet(user: Id, petId: Id, fault: Option<string>): (res: Response)
      reads this
      ensures fault.Some? ==> res == Response(500, Rejected(Fault(fault.value)))
      ensures fault.None? ==> res.status == 200 && res.reply.Many?
      ensures fault.None? ==> forall v :: v in res.reply.items ==>
        v.doc in table.Values && v.doc.userId == user && v.doc.petId == Some(petId) && v.petId == Raw(petId)
      ensures fault.None? ==> forall k :: k in table && table[k].userId == user && table[k].petId == Some(petId) ==>
        Unpopulated(table[k]) in res.reply.items
    {
      if fault.Some? then Response(500, Rejected(Fault(fault.value)))
      else Response(200, Many(set a | a in UserPetRecords(table, user, petId) :: Unpopulated(a)))
    }
  }
}
