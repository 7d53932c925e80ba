/**
 * The pet profile controller over an in-memory collection of documents:
 * `createPetProfile` builds the document as `{ ...req.body, userId }`,
 * validates it and inserts it with its age cast to a number; `getPetProfiles` returns the caller's pets.
 * Every failure of create, validation or otherwise, replies 400; a failure of
 * the list query replies 500.
 */
module PetProfileController {
  import opened Wrappers
  import opened Js
  import opened PetProfileModel

  /** `{ ...req.body, userId: req.user.id }`: the body's fields, then the
      authenticated user's id, which therefore wins over any `userId` in the body. */
  function OwnedDoc(body: Doc, user: Id): (r: Doc)
    ensures r.Keys == body.Keys + {"userId"}
    ensures r["userId"] == JStr(user)
    ensures forall k :: k in body && k != "userId" ==> r[k] == body[k]
  {
    body["userId" := JStr(user)]
  }

  /** A `userId` supplied in the body has no effect on the stored document. */
  lemma OwnerCannotBeForged(body: Doc, user: Id, forged: JsonValue)
    ensures OwnedDoc(body["userId" := forged], user) == OwnedDoc(body, user)
  {
  }

  /** ...and none on whether the document passes validation. */
  lemma OwnerDoesNotAffectValidation(id: Id, body: Doc, user: Id)
    ensures Validate(id, OwnedDoc(body, user)) == Validate(id, body)
  {
    assert "userId" !in RequiredPaths;
    ValidateIgnoresUndeclared(id, body, "userId", JStr(user));
  }

  /** Whose pet a stored document is. */
  predicate OwnedBy(doc: Doc, user: Id) {
    "userId" in doc && doc["userId"] == JStr(user)
  }

  datatype StoredPet = StoredPet(id: Id, doc: Doc)

  datatype StoreError =
    | ValidationFailed(paths: seq<string>)
    | DuplicateKey(id: Id)
    | Fault(message: string)

  datatype Reply =
    | Created(pet: StoredPet)
    | Listing(pets: set<StoredPet>)
    | Rejected(error: StoreError)   // `{ message: error.message }`

  datatype Response = Response(status: int, reply: Reply)

  class PetStore {
    var docs: map<Id, Doc>

    /** Every stored document passed validation and has an owner. */
    ghost predicate Valid()
      reads this
    {
      forall k :: k in docs ==> Validate(k, docs[k]).Passed? && "userId" in docs[k]
    }

    constructor ()
      ensures Valid() && docs == map[]
    {
      docs := map[];
    }

    /** `createPetProfile` */
    method Create(user: Id, newId: Id, body: Doc, fault: Option<string>) returns (res: Response)
      requires Valid()
      modifies this
      ensures Valid()
      ensures fault.Some? ==> res == Response(400, Rejected(Fault(fault.value))) && docs == old(docs)
      ensures fault.None? && Validate(newId, OwnedDoc(body, user)).Failed? ==>
        && res == Response(400, Rejected(ValidationFailed(Validate(newId, OwnedDoc(body, user)).paths)))
        && docs == old(docs)
      ensures fault.None? && Validate(newId, OwnedDoc(body, user)).Passed? && newId in old(docs) ==>
        res == Response(400, Rejected(DuplicateKey(newId))) && docs == old(docs)
      ensures fault.None? && Validate(newId, OwnedDoc(body, user)).Passed? && newId !in old(docs) ==>
        && docs == old(docs)[newId := Cast(OwnedDoc(body, user))]
        && res == Response(201, Created(StoredPet(newId, docs[newId])))
    {
      if fault.Some? {
        return Response(400, Rejected(Fault(fault.value)));
      }
      var doc := OwnedDoc(body, user);
      var checked := Validate(newId, doc);
      if checked.Failed? {
        return Response(400, Rejected(ValidationFailed(checked.paths)));
      }
      if newId in docs {
        return Response(400, Rejected(DuplicateKey(newId)));
      }
      CastKeepsProfile(newId, doc);
      docs := docs[newId := Cast(doc)];
      res := Response(201, Created(StoredPet(newId, Cast(doc))));
    }

    /** `getPetProfiles`: the documents whose `userId` is the caller's. */
    function List(user: Id, fault: Option<string>): (res: Response)
      reads this
      ensures fault.Some? ==> res == Response(500, Rejected(Fault(fault.value)))
      ensures fault.None? ==> res.status == 200 && res.reply.Listing?
      ensures fault.None? ==> forall p :: p in res.reply.pets ==>
        p.id in docs && docs[p.id] == p.doc && OwnedBy(p.doc, user)
      ensures fault.None? ==> forall k :: k in docs && OwnedBy(docs[k], user) ==>
        StoredPet(k, docs[k]) in res.reply.pets
    {
      if fault.Some? then Response(500, Rejected(Fault(fault.value)))
      else Response(200, Listing(set k | k in docs && OwnedBy(docs[k], user) :: StoredPet(k, docs[k])))
    }

    /** The collection as the typed profiles `populate` reads. */
    function Profiles(): (m: map<Id, PetProfile>)
      reads this
      requires Valid()
      ensures m.Keys == docs.Keys
      ensures forall k :: k in m ==> Validate(k, docs[k]) == Passed(m[k]) && m[k].id == k
    {
      map k | k in docs :: Validate(k, docs[k]).profile
    }
  }

  /** A pet created by one user is listed for that user and for no other:
      after `Create` stores the owned, cast document under `newId`, it is in the
      creator's listing and absent from every other user's. */
  lemma CreatedPetIsPrivate(store: PetStore, body: Doc, user: Id, newId: Id, other: Id)
    requires RequiredNumber(body, "age")
    requires newId in store.docs && store.docs[newId] == Cast(OwnedDoc(body, user))
    requires other != user
    ensures StoredPet(newId, store.docs[newId]) in store.List(user, None).reply.pets
    ensures StoredPet(newId, store.docs[newId]) !in store.List(other, None).reply.pets
  {
    assert OwnedBy(store.docs[newId], user);
    assert !OwnedBy(store.docs[newId], other);
  }
}
