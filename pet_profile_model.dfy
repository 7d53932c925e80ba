/**
 * The PetProfile schema: four required paths and nothing else. A document is
 * kept as the JSON object it was built from, so that fields the schema does
 * not declare (the owner id among them) stay visible; `Validate` is the
 * schema's required-path check and the typed view of a document that passes.
 */
module PetProfileModel {
  import opened Js
  import opened JsStrings
  import ListOps

  /** A JSON value as it can appear in a request body. */
  datatype JsonValue = JStr(s: string) | JNum(n: int) | JBool(b: bool) | JNull

  /** A document: field name to value. */
  type Doc = map<string, JsonValue>

  /** The declared paths, with the `_id` every stored document carries. */
  datatype PetProfile = PetProfile(id: Id, firstName: string, lastName: string, age: int, breed: string)

  /** The paths the schema declares, all required, in declaration order. */
  const RequiredPaths: seq<string> := ["firstName", "lastName", "age", "breed"]

  /** `{ type: String, required: true }`, restricted to string values: it
      accepts a non-empty string. The casts Mongoose applies to a number or
      boolean sent for such a path are not modelled. */
  predicate RequiredString(doc: Doc, path: string) {
    path in doc && doc[path].JStr? && doc[path].s != ""
  }

  /** `{ type: Number, required: true }` accepts a number, or a string of
      decimal digits, which the schema casts to the number it denotes. */
  predicate RequiredNumber(doc: Doc, path: string) {
    path in doc && (doc[path].JNum? || (doc[path].JStr? && IsDigits(doc[path].s)))
  }

  /** The number a value accepted by `RequiredNumber` is stored as. */
  function NumberValue(v: JsonValue): int
    requires v.JNum? || (v.JStr? && IsDigits(v.s))
  {
    if v.JNum? then v.n else DigitsValue(v.s)
  }

  predicate PathValid(doc: Doc, path: string) {
    if path == "age" then RequiredNumber(doc, path) else RequiredString(doc, path)
  }

  /** The required paths a document fails, in declaration order. */
  function FailingPaths(doc: Doc): seq<string> {
    ListOps.Filter(RequiredPaths, p => !PathValid(doc, p))
  }

  /** A profile whose four fields would pass the schema's checks. */
  predicate Conforms(p: PetProfile) {
    p.firstName != "" && p.lastName != "" && p.breed != ""
  }

  datatype Validation = Passed(profile: PetProfile) | Failed(paths: seq<string>)

  /** Schema validation of a document about to be stored under `id`. */
  function Validate(id: Id, doc: Doc): (r: Validation)
    ensures r.Passed? <==>
      RequiredString(doc, "firstName") && RequiredString(doc, "lastName") &&
      RequiredNumber(doc, "age") && RequiredString(doc, "breed")
    ensures r.Passed? ==>
      && r.profile.id == id
      && JStr(r.profile.firstName) == doc["firstName"]
      && JStr(r.profile.lastName) == doc["lastName"]
      && r.profile.age == NumberValue(doc["age"])
      && JStr(r.profile.breed) == doc["breed"]
      && Conforms(r.profile)
    ensures r.Failed? ==> |r.paths| > 0
    ensures r.Failed? ==> forall p :: p in r.paths <==> p in RequiredPaths && !PathValid(doc, p)
  {
    var failing := FailingPaths(doc);
    if failing == [] then
      assert forall i :: 0 <= i < |RequiredPaths| ==> PathValid(doc, RequiredPaths[i]);
      Passed(PetProfile(id, doc["firstName"].s, doc["lastName"].s, NumberValue(doc["age"]), doc["breed"].s))
    else
      assert !PathValid(doc, failing[0]);
      Failed(failing)
  }

  /** The document a conforming profile is stored as (without extra fields). */
  function ToDoc(p: PetProfile): Doc {
    map["firstName" := JStr(p.firstName), "lastName" := JStr(p.lastName),
        "age" := JNum(p.age), "breed" := JStr(p.breed)]
  }

  /** A conforming profile survives the trip to a document and back. */
  lemma ValidateToDoc(p: PetProfile)
    requires Conforms(p)
    ensures Validate(p.id, ToDoc(p)) == Passed(p)
  {
  }

  /** The pet forms send the age as the text of its input. A whole number
      typed there is cast, and the profile stores the number itself. */
  lemma {:induction false} FormAgeAccepted(id: Id, doc: Doc, n: nat)
    requires RequiredString(doc, "firstName") && RequiredString(doc, "lastName") && RequiredString(doc, "breed")
    ensures Validate(id, doc["age" := JStr(Decimal(n))]) ==
      Passed(PetProfile(id, doc["firstName"].s, doc["lastName"].s, n, doc["breed"].s))
  {
    DecimalRoundTrip(n);
  }

  /** The document as Mongoose builds and stores it: an accepted `age` is
      cast to the number it denotes, and every other field is kept. */
  function Cast(doc: Doc): (r: Doc)
    requires RequiredNumber(doc, "age")
    ensures r.Keys == doc.Keys
    ensures r["age"] == JNum(NumberValue(doc["age"]))
    ensures forall k :: k in doc && k != "age" ==> r[k] == doc[k]
  {
    doc["age" := JNum(NumberValue(doc["age"]))]
  }

  /** Casting keeps a document valid, with the same profile, and casting a
      cast document changes nothing more. */
  lemma CastKeepsProfile(id: Id, doc: Doc)
    requires Validate(id, doc).Passed?
    ensures Validate(id, Cast(doc)) == Validate(id, doc)
    ensures Cast(Cast(doc)) == Cast(doc)
  {
  }

  /** A whole number sent as the text of the age input is stored as that number. */
  lemma {:induction false} FormAgeStored(doc: Doc, n: nat)
    ensures Cast(doc["age" := JStr(Decimal(n))])["age"] == JNum(n)
  {
    DecimalRoundTrip(n);
  }

  /** An age input left empty (its initial `''`) fails the required check on `age`. */
  lemma BlankAgeRejected(id: Id, doc: Doc)
    ensures Validate(id, doc["age" := JStr("")]).Failed?
    ensures "age" in Validate(id, doc["age" := JStr("")]).paths
  {
  }

  /** Only the four declared paths decide validation: setting any other field,
      such as an owner id, changes neither the verdict nor the profile. */
  lemma ValidateIgnoresUndeclared(id: Id, doc: Doc, k: string, v: JsonValue)
    requires k !in RequiredPaths
    ensures Validate(id, doc[k := v]) == Validate(id, doc)
  {
    var d := doc[k := v];
    forall i | 0 <= i < |RequiredPaths|
      ensures PathValid(d, RequiredPaths[i]) == PathValid(doc, RequiredPaths[i])
    {
      assert RequiredPaths[i] != k;
    }
    ListOps.FilterAgree(RequiredPaths, p => !PathValid(d, p), p => !PathValid(doc, p));
    assert FailingPaths(d) == FailingPaths(doc);
    assert k != "firstName" && k != "lastName" && k != "age" && k != "breed" by {
      assert RequiredPaths[0] == "firstName" && RequiredPaths[1] == "lastName";
      assert RequiredPaths[2] == "age" && RequiredPaths[3] == "breed";
    }
  }
}
