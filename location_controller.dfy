/**
 * The location (airport) registry (src/airport/controller/LocationController.java):
 * creation checks the id pattern, uniqueness, the text fields, the latitude and longitude
 * ranges and their decimal places, in that order, and saves only a location that passes
 * them all.
 */
module LocationControl {
  import opened Optional
  import opened JavaBase
  import opened StatusCodes
  import opened Responses
  import opened Pipeline
  import opened KeyedStore
  import opened IdPatterns
  import opened Decimals

  datatype Location = Location(
    airportId: string,
    airportName: string,
    airportCity: string,
    airportCountry: string,
    airportLatitude: Decimal,
    airportLongitude: Decimal)

  /** The repository key of a location. */
  function LocationId(l: Location): string {
    l.airportId
  }

  const ID_MESSAGE := "El ID debe tener 3 letras mayúsculas"
  const FIELDS_MESSAGE := "Name, City y Country no pueden estar vacíos"
  const LATITUDE_MESSAGE := "Latitud debe estar entre -90 y 90"
  const LONGITUDE_MESSAGE := "Longitud debe estar entre -180 y 180"
  const PLACES_MESSAGE := "Latitud y Longitud pueden tener hasta 4 decimales"
  const CREATED_MESSAGE := "Localización creada exitosamente"
  const LIST_MESSAGE := "Listado de localizaciones"

  /** The CONFLICT message names the id already taken. */
  function DuplicateMessage(airportId: string): string {
    "Ya existe una localización con ID=" + airportId
  }

  /** A coordinate whose value times 10^4 is a whole number: the reference form of "at most 4 decimals". */
  predicate HasAtMostFourPlaces(d: Decimal) {
    d.scale <= 4 || d.unscaled % Pow10(d.scale - 4) == 0
  }

  /** A location that every check accepts: what the store may hold. */
  predicate WellFormed(l: Location) {
    && Matches(l.airportId, LOCATION_ID_PATTERN)
    && !IsBlank(l.airportName) && !IsBlank(l.airportCity) && !IsBlank(l.airportCountry)
    && -90.0 <= Value(l.airportLatitude) <= 90.0
    && -180.0 <= Value(l.airportLongitude) <= 180.0
    && HasAtMostFourPlaces(l.airportLatitude) && HasAtMostFourPlaces(l.airportLongitude)
  }

  /** The checks of `createLocation`, in the order the source runs them. */
  function CreationChecks(
    stored: set<string>, airportId: string, name: string, city: string, country: string,
    latitude: Decimal, longitude: Decimal): (r: seq<Check>)
    ensures |r| == 6
    ensures r[1].status == Conflict && (r[1].passes <==> airportId !in stored)
    ensures forall i :: 0 <= i < |r| && i != 1 ==> r[i].status == BadRequest
  {
    [ Check(Matches(airportId, LOCATION_ID_PATTERN), BadRequest, ID_MESSAGE),
      Check(airportId !in stored, Conflict, DuplicateMessage(airportId)),
      Check(!IsBlank(name) && !IsBlank(city) && !IsBlank(country), BadRequest, FIELDS_MESSAGE),
      Check(!(Value(latitude) < -90.0 || Value(latitude) > 90.0), BadRequest, LATITUDE_MESSAGE),
      Check(!(Value(longitude) < -180.0 || Value(longitude) > 180.0), BadRequest, LONGITUDE_MESSAGE),
      Check(!(DecimalScale(latitude) > 4 || DecimalScale(longitude) > 4), BadRequest, PLACES_MESSAGE) ]
  }

  /** An id that is not exactly three letters A-Z is reported first, as BAD_REQUEST, whatever the store holds. */
  lemma CreationChecksFormatFirst(
    stored: set<string>, airportId: string, name: string, city: string, country: string,
    latitude: Decimal, longitude: Decimal)
    requires !(|airportId| == 3 && forall i :: 0 <= i < 3 ==> 'A' <= airportId[i] <= 'Z')
    ensures var checks := CreationChecks(stored, airportId, name, city, country, latitude, longitude);
            FirstFailure(checks) == Some(0) && checks[0].status == BadRequest
  {
    LocationIdShape(airportId);
    FirstFailureAt(CreationChecks(stored, airportId, name, city, country, latitude, longitude), 0);
  }

  /** CONFLICT is reported exactly when the id is well formed and already stored, before any field check. */
  lemma CreationChecksConflict(
    stored: set<string>, airportId: string, name: string, city: string, country: string,
    latitude: Decimal, longitude: Decimal)
    ensures var checks := CreationChecks(stored, airportId, name, city, country, latitude, longitude);
            && (FirstFailure(checks).Some? && checks[FirstFailure(checks).value].status == Conflict
                <==> Matches(airportId, LOCATION_ID_PATTERN) && airportId in stored)
            && (FirstFailure(checks).Some? && checks[FirstFailure(checks).value].status != Conflict ==>
                  checks[FirstFailure(checks).value].status == BadRequest)
  {
    if Matches(airportId, LOCATION_ID_PATTERN) && airportId in stored {
      FirstFailureAt(CreationChecks(stored, airportId, name, city, country, latitude, longitude), 1);
    }
  }

  /** An out-of-range latitude is reported before the longitude is looked at. */
  lemma CreationChecksLatitudeFirst(
    stored: set<string>, airportId: string, name: string, city: string, country: string,
    latitude: Decimal, longitude: Decimal)
    requires Matches(airportId, LOCATION_ID_PATTERN) && airportId !in stored
    requires !IsBlank(name) && !IsBlank(city) && !IsBlank(country)
    requires Value(latitude) < -90.0 || Value(latitude) > 90.0
    ensures var checks := CreationChecks(stored, airportId, name, city, country, latitude, longitude);
            FirstFailure(checks) == Some(3) && checks[3].message == LATITUDE_MESSAGE
  {
    FirstFailureAt(CreationChecks(stored, airportId, name, city, country, latitude, longitude), 3);
  }

  /** A creation is accepted exactly when the id is new and the location is well formed. */
  lemma CreationChecksAccept(
    stored: set<string>, airportId: string, name: string, city: string, country: string,
    latitude: Decimal, longitude: Decimal)
    ensures FirstFailure(CreationChecks(stored, airportId, name, city, country, latitude, longitude)).None?
            <==> airportId !in stored && WellFormed(Location(airportId, name, city, country, latitude, longitude))
  {
    var checks := CreationChecks(stored, airportId, name, city, country, latitude, longitude);
    if !Matches(airportId, LOCATION_ID_PATTERN) {
      assert !checks[0].passes;
    } else if airportId in stored {
      assert !checks[1].passes;
    } else if IsBlank(name) || IsBlank(city) || IsBlank(country) {
      assert !checks[2].passes;
    } else if Value(latitude) < -90.0 || Value(latitude) > 90.0 {
      assert !checks[3].passes;
    } else if Value(longitude) < -180.0 || Value(longitude) > 180.0 {
      assert !checks[4].passes;
    } else {
      AtMostFourPlaces(latitude);
      AtMostFourPlaces(longitude);
      if DecimalScale(latitude) > 4 || DecimalScale(longitude) > 4 {
        assert !checks[5].passes;
      } else {
        assert forall j :: 0 <= j < |checks| ==> checks[j].passes;
      }
    }
  }

  /** A creation answers with success, CREATED and the new location exactly when it is accepted; otherwise with an error and no data. */
  lemma CreationOutcome(
    stored: set<string>, airportId: string, name: string, city: string, country: string,
    latitude: Decimal, longitude: Decimal)
    ensures var l := Location(airportId, name, city, country, latitude, longitude);
            var r := Verdict(CreationChecks(stored, airportId, name, city, country, latitude, longitude),
                             Of(Created, CREATED_MESSAGE, l));
            && (r.IsSuccess() <==> airportId !in stored && WellFormed(l))
            && (r.IsSuccess() ==> r.status == Created && r.data == Some(l))
            && (!r.IsSuccess() ==> r.data.None?)
  {
    var l := Location(airportId, name, city, country, latitude, longitude);
    CreationChecksAccept(stored, airportId, name, city, country, latitude, longitude);
    VerdictSuccess(CreationChecks(stored, airportId, name, city, country, latitude, longitude), Of(Created, CREATED_MESSAGE, l));
  }

  class LocationController {
    const repository: Repository<string, Location>

    /** The store is keyed by airport id and holds only well-formed locations. */
    ghost predicate Valid()
      reads this, repository
    {
      && repository.Valid()
      && repository.key == LocationId
      && repository.less == StringLess
      && forall k :: k in repository.entries ==> WellFormed(repository.entries[k])
    }

    constructor ()
      ensures Valid() && fresh(repository) && repository.entries == map[]
    {
      repository := new Repository(LocationId, StringLess);
    }

    /** `createLocation`. */
    method CreateLocation(
      airportId: string, name: string, city: string, country: string, latitude: Decimal, longitude: Decimal)
      returns (r: Response<Location>)
      requires Valid()
      modifies repository
      ensures Valid()
      ensures var checks := CreationChecks(old(repository.entries).Keys, airportId, name, city, country, latitude, longitude);
              var l := Location(airportId, name, city, country, latitude, longitude);
              && r == Verdict(checks, Of(Created, CREATED_MESSAGE, l))
              && repository.entries == if FirstFailure(checks).None? then old(repository.entries)[airportId := l]
                                       else old(repository.entries)
    {
      ghost var checks := CreationChecks(repository.entries.Keys, airportId, name, city, country, latitude, longitude);
      ghost var l := Location(airportId, name, city, country, latitude, longitude);
      if !Matches(airportId, LOCATION_ID_PATTERN) {
        VerdictAt(checks, 0, Of(Created, CREATED_MESSAGE, l));
        return OfNoData(BadRequest, ID_MESSAGE);
      }
      if repository.FindById(airportId).Some? {
        VerdictAt(checks, 1, Of(Created, CREATED_MESSAGE, l));
        return OfNoData(Conflict, DuplicateMessage(airportId));
      }
      if IsBlank(name) || IsBlank(city) || IsBlank(country) {
        VerdictAt(checks, 2, Of(Created, CREATED_MESSAGE, l));
        return OfNoData(BadRequest, FIELDS_MESSAGE);
      }
      if Value(latitude) < -90.0 || Value(latitude) > 90.0 {
        VerdictAt(checks, 3, Of(Created, CREATED_MESSAGE, l));
        return OfNoData(BadRequest, LATITUDE_MESSAGE);
      }
      if Value(longitude) < -180.0 || Value(longitude) > 180.0 {
        VerdictAt(checks, 4, Of(Created, CREATED_MESSAGE, l));
        return OfNoData(BadRequest, LONGITUDE_MESSAGE);
      }
      if DecimalScale(latitude) > 4 || DecimalScale(longitude) > 4 {
        VerdictAt(checks, 5, Of(Created, CREATED_MESSAGE, l));
        return OfNoData(BadRequest, PLACES_MESSAGE);
      }
      VerdictNone(checks, Of(Created, CREATED_MESSAGE, l));
      CreationChecksAccept(repository.entries.Keys, airportId, name, city, country, latitude, longitude);
      var saved := repository.Save(Location(airportId, name, city, country, latitude, longitude));
      r := Of(Created, CREATED_MESSAGE, saved.value);
    }

    /** `getAllLocations`: a copy of every stored location, in the store's id order. */
    method GetAllLocations() returns (r: Response<seq<Location>>)
      requires Valid()
      ensures r.status == Ok && r.message == LIST_MESSAGE && r.data.Some?
      ensures |r.data.value| == |repository.entries|
      ensures forall i, j :: 0 <= i < j < |r.data.value| ==>
                StringLess(r.data.value[i].airportId, r.data.value[j].airportId)
      ensures forall i :: 0 <= i < |r.data.value| ==>
                r.data.value[i].airportId in repository.entries
                && repository.entries[r.data.value[i].airportId] == r.data.value[i]
      ensures forall k :: k in repository.entries ==>
                exists i :: 0 <= i < |r.data.value| && r.data.value[i] == repository.entries[k]
    {
      StringLessIsStrictTotalOrder();
      var originals := repository.FindAll();
      r := Of(Ok, LIST_MESSAGE, originals);
    }
  }
}
