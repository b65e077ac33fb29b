/**
 * The trips collection endpoint: `GET` lists the stored trips, `POST` checks
 * a JSON body field by field and then creates the trip. The database is an
 * in-memory collection keyed by trip code. The listing order of a plain
 * `find` is unspecified; the model lists in insertion order, and what `GET`
 * promises does not depend on the order.
 */
module TripsApi {
  import opened Wrappers
  import opened TripModel

  /** The decimal text JavaScript writes for a number; never empty. */
  type NumberText = s: string | s != [] witness "0"

  /** A value of the request body: absent, `null`, a number (with its text) or a string. */
  datatype Json = Undefined | Null | Num(value: real, text: NumberText) | Str(s: string)

  type Body = map<string, Json>

  /** `body[name]`: `undefined` when the body has no such property. */
  function Field(body: Body, name: string): Json {
    if name in body then body[name] else Undefined
  }

  /** The fields `POST` insists on, in the order it checks them. */
  const RequiredFields: seq<string> :=
    ["code", "name", "length", "durationNights", "start", "resort", "rating", "perPerson", "image", "description"]

  /** `v === undefined || v === null || v === ''`: strict equality, so the number 0 is present. */
  predicate Missing(v: Json) {
    v == Undefined || v == Null || v == Str("")
  }

  /** The index of the first field of `fields` that `body` lacks, or `|fields|` when it has them all. */
  function FirstMissing(fields: seq<string>, body: Body): (i: nat)
    ensures i <= |fields|
    ensures forall k :: 0 <= k < i ==> !Missing(Field(body, fields[k]))
    ensures i < |fields| ==> Missing(Field(body, fields[i]))
  {
    if fields == [] then 0
    else if Missing(Field(body, fields[0])) then 0
    else 1 + FirstMissing(fields[1..], body)
  }

  /** The required field the `POST` check reports, if any. */
  function MissingField(body: Body): (r: Option<string>)
    ensures r.Some? ==> r.value in RequiredFields && Missing(Field(body, r.value))
  {
    var i := FirstMissing(RequiredFields, body);
    if i < |RequiredFields| then Some(RequiredFields[i]) else None
  }

  /** What a reply of the endpoint carries. */
  datatype Reply =
    | Listed(trips: seq<Trip>)
    | Created(trip: Trip)
    | Failed(status: nat, message: string)

  /** The HTTP status of a reply. */
  function StatusOf(r: Reply): nat {
    match r
    case Listed(_) => 200
    case Created(_) => 201
    case Failed(status, _) => status
  }

  function MissingMessage(field: string): string {
    "Missing or empty required field: " + field
  }

  const NightsMessage := "durationNights must be a positive number."
  const RatingMessage := "rating must be a number between 1 and 5."
  const ValidationMessage := "Validation Error"
  const DuplicateMessage := "Duplicate trip code."
  const NotFoundMessage := "Trips not found"

  /** `typeof v === 'number' && v >= 1`. */
  predicate NightsOk(v: Json) {
    v.Num? && v.value >= 1.0
  }

  /** `typeof v === 'number' && 1 <= v <= 5`. */
  predicate RatingOk(v: Json) {
    v.Num? && 1.0 <= v.value <= 5.0
  }

  /** The schema's cast of a value to a String field: a string as it is, a number as its text. */
  function TextOf(v: Json): string {
    match v
    case Str(s) => s
    case Num(_, text) => text
    case _ => ""
  }

  function NumberOf(v: Json): real {
    if v.Num? then v.value else 0.0
  }

  /** The document the schema builds from the body; properties it does not know are dropped. */
  function TripFromBody(body: Body): (t: Trip)
    ensures Complete(body) && NightsOk(Field(body, "durationNights")) && RatingOk(Field(body, "rating")) ==> ValidTrip(t)
    ensures t.code == TextOf(Field(body, "code"))
    ensures !Missing(Field(body, "code")) ==> t.code != ""
  {
    assert RequiredFields[0] == "code" && RequiredFields[1] == "name" && RequiredFields[2] == "length";
    assert RequiredFields[4] == "start" && RequiredFields[5] == "resort" && RequiredFields[7] == "perPerson";
    assert RequiredFields[8] == "image" && RequiredFields[9] == "description";
    Trip(
      TextOf(Field(body, "code")),
      TextOf(Field(body, "name")),
      TextOf(Field(body, "length")),
      NumberOf(Field(body, "durationNights")),
      TextOf(Field(body, "start")),
      TextOf(Field(body, "resort")),
      NumberOf(Field(body, "rating")),
      TextOf(Field(body, "perPerson")),
      TextOf(Field(body, "image")),
      TextOf(Field(body, "description")))
  }

  /**
   * The reply to `POST` against the stored `trips`. `isDate` is the schema's
   * cast of `start` to a date; a value it rejects fails validation.
   */
  function PostOutcome(trips: map<string, Trip>, body: Body, isDate: Json -> bool): (r: Reply)
    ensures !r.Listed?
    ensures r.Created? ==> r.trip == TripFromBody(body) && r.trip.code !in trips
    ensures r.Failed? && r.status == 409 ==> TextOf(Field(body, "code")) in trips
    ensures MissingField(body).Some? ==> r == Failed(400, MissingMessage(MissingField(body).value))
  {
    match MissingField(body)
    case Some(field) => Failed(400, MissingMessage(field))
    case None =>
      if !NightsOk(Field(body, "durationNights")) then Failed(400, NightsMessage)
      else if !RatingOk(Field(body, "rating")) then Failed(400, RatingMessage)
      else if !isDate(Field(body, "start")) then Failed(400, ValidationMessage)
      else if TextOf(Field(body, "code")) in trips then Failed(409, DuplicateMessage)
      else Created(TripFromBody(body))
  }

  /** A body in which every required field is present. */
  predicate Complete(body: Body) {
    forall k :: 0 <= k < |RequiredFields| ==> !Missing(Field(body, RequiredFields[k]))
  }

  /** The check reports the first absent field in the fixed order, and nothing when all are present. */
  lemma MissingFieldMeaning(body: Body)
    ensures MissingField(body).None? <==> Complete(body)
    ensures MissingField(body).Some? ==>
      exists k :: 0 <= k < |RequiredFields| && RequiredFields[k] == MissingField(body).value
        && Missing(Field(body, RequiredFields[k]))
        && forall j :: 0 <= j < k ==> !Missing(Field(body, RequiredFields[j]))
  {
    var i := FirstMissing(RequiredFields, body);
    if i < |RequiredFields| {
      assert RequiredFields[i] == MissingField(body).value;
    }
  }

  /** A present value is cast to non-empty text. */
  lemma PresentTextNonEmpty(v: Json)
    requires !Missing(v)
    ensures TextOf(v) != ""
  {
  }

  /**
   * `POST` creates a trip exactly when every field is present, the night
   * count and the rating are in range, `start` is a date and the code is
   * fresh; the trip it creates satisfies the schema.
   */
  lemma PostOutcomeMeaning(trips: map<string, Trip>, body: Body, isDate: Json -> bool)
    ensures PostOutcome(trips, body, isDate).Created? <==>
      Complete(body) && NightsOk(Field(body, "durationNights")) && RatingOk(Field(body, "rating"))
      && isDate(Field(body, "start")) && TextOf(Field(body, "code")) !in trips
    ensures PostOutcome(trips, body, isDate).Created? ==>
      PostOutcome(trips, body, isDate).trip.code !in trips && ValidTrip(PostOutcome(trips, body, isDate).trip)
  {
    MissingFieldMeaning(body);
    if PostOutcome(trips, body, isDate).Created? {
      var t := TripFromBody(body);
      forall k | 0 <= k < |RequiredFields| ensures TextOf(Field(body, RequiredFields[k])) != "" {
        PresentTextNonEmpty(Field(body, RequiredFields[k]));
      }
      assert RequiredFields[0] == "code" && RequiredFields[1] == "name" && RequiredFields[2] == "length";
      assert RequiredFields[4] == "start" && RequiredFields[5] == "resort" && RequiredFields[7] == "perPerson";
      assert RequiredFields[8] == "image" && RequiredFields[9] == "description";
    }
  }

  /** Every failure is a 400 or, for a taken code, a 409; a 409 only when the code is taken. */
  lemma PostFailures(trips: map<string, Trip>, body: Body, isDate: Json -> bool)
    ensures PostOutcome(trips, body, isDate).Failed? ==> StatusOf(PostOutcome(trips, body, isDate)) in {400, 409}
    ensures StatusOf(PostOutcome(trips, body, isDate)) == 409 <==>
      MissingField(body) == None && NightsOk(Field(body, "durationNights")) && RatingOk(Field(body, "rating"))
      && isDate(Field(body, "start")) && TextOf(Field(body, "code")) in trips
    ensures PostOutcome(trips, body, isDate).Listed? == false
  {
  }

  /**
   * Presence is strict equality: a night count of 0 passes the presence
   * check and is turned away by the range check, with its own message.
   */
  lemma ZeroNightsRejected(trips: map<string, Trip>, body: Body, isDate: Json -> bool)
    requires Complete(body)
    requires Field(body, "durationNights") == Num(0.0, "0")
    ensures PostOutcome(trips, body, isDate) == Failed(400, NightsMessage)
  {
    MissingFieldMeaning(body);
  }

  /** The rating is only looked at once the night count has passed. */
  lemma NightsCheckedBeforeRating(trips: map<string, Trip>, body: Body, isDate: Json -> bool)
    requires Complete(body) && !NightsOk(Field(body, "durationNights"))
    ensures PostOutcome(trips, body, isDate) == Failed(400, NightsMessage)
  {
    MissingFieldMeaning(body);
  }

  /** `POST` with a body lacking `name` but holding `code` reports `name`. */
  lemma FirstAbsentFieldReported(body: Body)
    requires !Missing(Field(body, "code")) && Missing(Field(body, "name"))
    ensures MissingField(body) == Some("name")
  {
    assert RequiredFields[0] == "code" && RequiredFields[1] == "name";
  }

  /** The stored trips, one per code, in insertion order. */
  function ListOf(codes: seq<string>, trips: map<string, Trip>): seq<Trip>
    requires forall k :: 0 <= k < |codes| ==> codes[k] in trips
  {
    if codes == [] then [] else [trips[codes[0]]] + ListOf(codes[1..], trips)
  }

  lemma {:induction false} ListOfMeaning(codes: seq<string>, trips: map<string, Trip>)
    requires forall k :: 0 <= k < |codes| ==> codes[k] in trips
    ensures |ListOf(codes, trips)| == |codes|
    ensures forall k :: 0 <= k < |codes| ==> ListOf(codes, trips)[k] == trips[codes[k]]
  {
    if codes != [] {
      ListOfMeaning(codes[1..], trips);
    }
  }

  /** The collection: the trips by code, and the codes in insertion order. */
  class TripStore {
    var trips: map<string, Trip>
    var order: seq<string>

    /** Every stored trip satisfies the schema under its own, unique, code; `order` lists each code once. */
    ghost predicate Valid()
      reads this
    {
      && ValidCollection(trips)
      && (forall k :: 0 <= k < |order| ==> order[k] in trips)
      && (forall c :: c in trips ==> c in order)
      && (forall i, j :: 0 <= i < j < |order| ==> order[i] != order[j])
    }

    constructor ()
      ensures Valid() && trips == map[] && order == []
    {
      trips := map[];
      order := [];
    }

    /**
     * `GET`: 404 with "Trips not found" when nothing is stored, otherwise
     * 200 with every stored trip exactly once.
     */
    method Get() returns (r: Reply)
      requires Valid()
      ensures r.Failed? <==> trips == map[]
      ensures r.Failed? ==> r == Failed(404, NotFoundMessage)
      ensures r.Listed? ==> |r.trips| == |trips|
      ensures r.Listed? ==> forall k :: 0 <= k < |r.trips| ==> r.trips[k].code in trips && trips[r.trips[k].code] == r.trips[k]
      ensures r.Listed? ==> forall c :: c in trips ==> trips[c] in r.trips
      ensures r.Listed? ==> forall i, j :: 0 <= i < j < |r.trips| ==> r.trips[i].code != r.trips[j].code
      ensures !r.Created?
    {
      var listed := ListOf(order, trips);
      ListingMeaning(order, trips);
      if |listed| == 0 {
        return Failed(404, NotFoundMessage);
      }
      return Listed(listed);
    }

    /** The required-field loop: the first field of the fixed list that the body lacks. */
    static method FindMissingField(body: Body) returns (missing: Option<string>)
      ensures missing == MissingField(body)
    {
      var i := 0;
      while i < |RequiredFields|
        invariant 0 <= i <= |RequiredFields|
        invariant forall k :: 0 <= k < i ==> !Missing(Field(body, RequiredFields[k]))
      {
        var field := RequiredFields[i];
        if Missing(Field(body, field)) {
          return Some(field);
        }
        i := i + 1;
      }
      return None;
    }

    /**
     * `POST`: the reply `PostOutcome` gives; a created trip is added under its
     * code and nothing else changes, and on every failure the store is as it was.
     */
    method Post(body: Body, isDate: Json -> bool) returns (r: Reply)
      requires Valid()
      modifies this
      ensures Valid()
      ensures r == PostOutcome(old(trips), body, isDate)
      ensures trips == if r.Created? then old(trips)[r.trip.code := r.trip] else old(trips)
      ensures order == if r.Created? then old(order) + [r.trip.code] else old(order)
    {
      var missing := FindMissingField(body);
      if missing.Some? {
        return Failed(400, MissingMessage(missing.value));
      }
      var nights := Field(body, "durationNights");
      if !nights.Num? || nights.value < 1.0 {
        return Failed(400, NightsMessage);
      }
      var rating := Field(body, "rating");
      if !rating.Num? || rating.value < 1.0 || rating.value > 5.0 {
        return Failed(400, RatingMessage);
      }
      if !isDate(Field(body, "start")) {
        return Failed(400, ValidationMessage);
      }
      var trip := TripFromBody(body);
      if trip.code in trips {
        return Failed(409, DuplicateMessage);
      }
      PostOutcomeMeaning(trips, body, isDate);
      AddKeepsValid(trips, trip);
      trips := trips[trip.code := trip];
      order := order + [trip.code];
      r := Created(trip);
    }
  }

  /** Listing the codes of a valid store gives every stored trip once, and nothing else. */
  lemma ListingMeaning(order: seq<string>, trips: map<string, Trip>)
    requires ValidCollection(trips)
    requires forall k :: 0 <= k < |order| ==> order[k] in trips
    requires forall c :: c in trips ==> c in order
    requires forall i, j :: 0 <= i < j < |order| ==> order[i] != order[j]
    ensures |ListOf(order, trips)| == |trips|
    ensures |ListOf(order, trips)| == 0 <==> trips == map[]
    ensures forall k :: 0 <= k < |ListOf(order, trips)| ==>
      ListOf(order, trips)[k].code in trips && trips[ListOf(order, trips)[k].code] == ListOf(order, trips)[k]
    ensures forall c :: c in trips ==> trips[c] in ListOf(order, trips)
    ensures forall i, j :: 0 <= i < j < |ListOf(order, trips)| ==> ListOf(order, trips)[i].code != ListOf(order, trips)[j].code
  {
    var listed := ListOf(order, trips);
    ListOfMeaning(order, trips);
    OrderCoversKeys(order, trips);
    forall c | c in trips ensures trips[c] in listed {
      var k :| 0 <= k < |order| && order[k] == c;
      assert listed[k] == trips[c];
    }
  }

  /** The codes in `order` are exactly the keys, once each, so there are as many. */
  lemma OrderCoversKeys(order: seq<string>, trips: map<string, Trip>)
    requires ValidCollection(trips)
    requires forall k :: 0 <= k < |order| ==> order[k] in trips
    requires forall c :: c in trips ==> c in order
    requires forall i, j :: 0 <= i < j < |order| ==> order[i] != order[j]
    ensures |order| == |trips|
  {
    var keys := set k | 0 <= k < |order| :: order[k];
    assert keys == trips.Keys;
    DistinctCardinality(order);
  }

  /** A sequence without repetitions has as many distinct elements as it is long. */
  lemma {:induction false} DistinctCardinality(s: seq<string>)
    requires forall i, j :: 0 <= i < j < |s| ==> s[i] != s[j]
    ensures |set k | 0 <= k < |s| :: s[k]| == |s|
  {
    if s != [] {
      var front := s[..|s| - 1];
      DistinctCardinality(front);
      var all := set k | 0 <= k < |s| :: s[k];
      var before := set k | 0 <= k < |front| :: front[k];
      assert all == before + {s[|s| - 1]};
      assert s[|s| - 1] !in before;
    }
  }
}
