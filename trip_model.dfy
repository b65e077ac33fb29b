/**
 * The Trip schema: ten required fields, a unique `code`, at least one night,
 * and a rating between 1 and 5. Numbers are JSON numbers (`real`); `start` is
 * kept as the text it was given; `perPerson` is text.
 */
module TripModel {

  datatype Trip = Trip(
    code: string,
    name: string,
    length: string,
    durationNights: real,
    start: string,
    resort: string,
    rating: real,
    perPerson: string,
    image: string,
    description: string)

  /**
   * What the schema accepts: every String field present and non-empty (the
   * schema's `required` rejects the empty string), `durationNights >= 1` and
   * `1 <= rating <= 5`.
   */
  predicate ValidTrip(t: Trip) {
    && t.code != "" && t.name != "" && t.length != "" && t.start != ""
    && t.resort != "" && t.perPerson != "" && t.image != "" && t.description != ""
    && t.durationNights >= 1.0
    && 1.0 <= t.rating <= 5.0
  }

  /**
   * The collection, indexed by the unique `code`: every trip sits under its
   * own code and satisfies the schema.
   */
  predicate ValidCollection(trips: map<string, Trip>) {
    forall c :: c in trips ==> trips[c].code == c && ValidTrip(trips[c])
  }

  /** No two stored trips share a code. */
  lemma CodesUnique(trips: map<string, Trip>, c1: string, c2: string)
    requires ValidCollection(trips)
    requires c1 in trips && c2 in trips && c1 != c2
    ensures trips[c1].code != trips[c2].code
  {
  }

  /** Adding a trip under its own fresh code keeps the collection valid and changes nothing else. */
  lemma AddKeepsValid(trips: map<string, Trip>, t: Trip)
    requires ValidCollection(trips) && ValidTrip(t) && t.code !in trips
    ensures ValidCollection(trips[t.code := t])
    ensures trips[t.code := t].Keys == trips.Keys + {t.code}
    ensures forall c :: c in trips ==> trips[t.code := t][c] == trips[c]
  {
  }
}
