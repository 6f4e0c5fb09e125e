# Airport entity registration, modelled in Dafny

This project models the registration layer of the airport system. Three controllers validate a
request, then write to an in-memory store keyed by id:

- passengers: register, update, list;
- planes: create, list;
- locations (airports): create, list.

Every operation answers with the same envelope, a `Response` holding a `StatusCode`, a message
and optional data.

Each create or update operation runs a fixed list of checks, and the first check that fails
decides the answer. In the model this ordered list is a `seq<Check>` per operation
(`RegistrationChecks`, `UpdateChecks`, `CreationChecks`). Each `Check` carries the condition, the
status and the message the source answers with when that condition fails. `Pipeline.FirstFailure`
finds the earliest failing check, and `Pipeline.Verdict` turns it into a response. The controller
methods are written as the source's chains of early returns. Each method's `ensures` ties its
response and the new store to `Verdict` and `FirstFailure` of that list:

- when some check fails, the store is unchanged;
- when every check passes, the store gains or replaces exactly the requested entity.

Lemmas about the check lists state the business rules:

- which error comes first;
- uniqueness is looked at only after the id format;
- acceptance holds exactly when the id is new (or, for an update, known) and the entity is
  well formed;
- the response is a success exactly when the request is accepted.

Each controller's `Valid()` invariant says that every stored entity is well formed, under its
own id.

Modules:

| module | file | models |
|---|---|---|
| `StatusCodes` | `status_code.dfy` | the `StatusCode` enum and `getCode` |
| `Responses` | `response.dfy` | `Response`, its two `of` factories, getters (datatype fields) and `isSuccess` |
| `JavaBase` | `java_base.dfy` | Java `int`/`long` ranges, `String.valueOf` of an integer and its length, `Character.isWhitespace`, `String.isBlank` |
| `Calendar` | `calendar.dfy` | `LocalDate.of` and the ISO 8601 proleptic Gregorian calendar |
| `Decimals` | `decimals.dfy` | coordinates as exact decimals, `BigDecimal.stripTrailingZeros`, the controller's `decimalScale` |
| `IdPatterns` | `id_pattern.dfy` | the two `ID_PATTERN` regular expressions |
| `KeyedStore` | `keyed_store.dfy` | the repository: `findById`, `save`, `update`, `findAll` ordered by id |
| `Pipeline` | `pipeline.dfy` | first-failure-wins checks and the response they produce |
| `PassengerControl` | `passenger_controller.dfy` | `PassengerController` |
| `PlaneControl` | `plane_controller.dfy` | `PlaneController` |
| `LocationControl` | `location_controller.dfy` | `LocationController` |

The repository classes (`PassengerRepository`, `PlaneRepository`, `LocationRepository`) are not
modelled from their code; `KeyedStore.Repository` gives them the behaviour the controllers rely on:

- `findById` returns the stored entity or nothing;
- `save` inserts an entity whose id is new;
- `update` replaces the entity stored under the same id;
- `findAll` lists every entity once, in increasing id order. Passenger ids are ordered
  numerically. Plane and location ids are ordered by `String.compareTo`.

## Model

| member | source | states |
|---|---|---|
| StatusCodes.CodeTable | src/airport/response/StatusCode.java:6-23 | `getCode` is OK=200, CREATED=201, BAD_REQUEST=400, NOT_FOUND=404, CONFLICT=409, INTERNAL_ERROR=500 |
| StatusCodes.CodeInjective | src/airport/response/StatusCode.java:7-12 | two constants have the same code exactly when they are the same constant |
| Responses.FactoriesPreserveFields | src/airport/response/Response.java:19-38 | `of(status, message, data)` keeps all three values, and `of(status, message)` has no data |
| Responses.SuccessIsOkOrCreated | src/airport/response/Response.java:41-44 | `isSuccess` (code in [200, 300)) holds exactly for OK and CREATED |
| JavaBase.DecimalLengthBound | src/airport/controller/PassengerController.java:44 | a non-negative number has at most k decimal digits exactly when it is below 10^k |
| JavaBase.DecimalDigits | src/airport/controller/PassengerController.java:44 | the rendering of n has `DecimalLength(n)` characters, all 0-9, with no leading zero |
| JavaBase.DecimalDigitsRoundTrip | src/airport/controller/PassengerController.java:44 | reading the rendered digits back gives the number again |
| JavaBase.ValueOf | src/airport/controller/PassengerController.java:121 | `String.valueOf(n)` has the digit count of n, plus one for the minus sign of a negative n |
| JavaBase.ValueOfRoundTrip | src/airport/controller/PassengerController.java:121 | `String.valueOf(n)` is a sign followed by digits that read back as the magnitude of n |
| JavaBase.IsWhitespace | src/airport/controller/PassengerController.java:53-54 | `Character.isWhitespace`: ASCII space, tab, newline and carriage return are whitespace; the non-breaking spaces U+00A0, U+2007, U+202F, letters and digits are not |
| JavaBase.IsBlank | src/airport/controller/PassengerController.java:53-54 | `String.isBlank`: the empty string is blank, and a string with any non-whitespace character is not |
| JavaBase.SpacesAreBlank | src/airport/controller/PassengerController.java:53-54 | a string made only of spaces and tabs, such as "   ", is blank although it is not empty |
| Calendar.MonthLength | src/airport/controller/PassengerController.java:61 | a month has 28 to 31 days, and 29 exactly for February of a leap year |
| Calendar.LocalDateOf | src/airport/controller/PassengerController.java:59-65 | `LocalDate.of`, checked in stages, succeeds exactly on the calendar-valid dates and returns that date |
| Calendar.LeapDay | src/airport/controller/PassengerController.java:61 | February 29th is accepted exactly in leap years |
| Decimals.StripTrailingZeros | src/airport/controller/LocationController.java:104 | the result is zero exactly when the input is, zero has scale 0, a non-zero result has no trailing zero, and a non-zero input's scale never grows |
| Decimals.StripPreservesValue | src/airport/controller/LocationController.java:104 | stripping keeps the number: the old unscaled value is the new one times 10^(dropped places) |
| Decimals.DecimalScale | src/airport/controller/LocationController.java:103-106 | `decimalScale`: zero has no places, the count never exceeds the representation's non-negative scale, and a representation without a trailing zero keeps its own scale |
| Decimals.AtMostFourPlaces | src/airport/controller/LocationController.java:103-106 | `decimalScale(d) <= 4` exactly when d times 10^4 is a whole number |
| IdPatterns.Repeat | src/airport/controller/PlaneController.java:18 | `X{n}` is n copies of the class X |
| IdPatterns.MatchesIff | src/airport/controller/PlaneController.java:18 | a whole-string match means the same length and each character in its class |
| IdPatterns.PlaneIdShape | src/airport/controller/PlaneController.java:18 | `^[A-Z]{2}\d{5}$` matches exactly 7 characters: two letters A-Z, then five digits 0-9 |
| IdPatterns.LocationIdShape | src/airport/controller/LocationController.java:24 | `^[A-Z]{3}$` matches exactly three letters A-Z |
| KeyedStore.StringLessIrreflexive | src/airport/controller/PlaneController.java:77-79 | no id sorts before itself under `compareTo` |
| KeyedStore.StringLessTransitive | src/airport/controller/PlaneController.java:77-79 | the `compareTo` order of ids is transitive |
| KeyedStore.StringLessConnected | src/airport/controller/PlaneController.java:77-79 | any two distinct ids are ordered one way or the other |
| KeyedStore.StringLessIsStrictTotalOrder | src/airport/controller/PlaneController.java:77-79 | the `compareTo` order of string ids is a strict total order |
| KeyedStore.GreatestExists | src/airport/controller/PassengerController.java:173-177 | a non-empty set of ids has a greatest one |
| KeyedStore.SortedKeys | src/airport/controller/PassengerController.java:173-177 | the stored ids, strictly increasing, each exactly once |
| KeyedStore.Repository.constructor | src/airport/controller/PassengerController.java:21-23 | a new repository is empty |
| KeyedStore.Repository.FindById | src/airport/controller/PassengerController.java:48 | `findById` finds an entity exactly when its id is stored, returns the stored entity, and that entity has the id asked for |
| KeyedStore.Repository.Save | src/airport/controller/PassengerController.java:84-87 | a new id is inserted with exactly this entity, a duplicate changes nothing |
| KeyedStore.Repository.Update | src/airport/controller/PassengerController.java:157 | a known id has its entity replaced and nothing else changes; an unknown id changes nothing |
| KeyedStore.Repository.FindAll | src/airport/controller/PassengerController.java:177 | every stored entity exactly once, in strictly increasing id order, each equal to the stored one |
| Pipeline.FirstFailure | src/airport/controller/PassengerController.java:43-81 | the reported check fails and every earlier check passes; nothing is reported exactly when all pass |
| Pipeline.FirstFailureAt | src/airport/controller/PassengerController.java:43-81 | a failing check preceded only by passing ones is the one reported |
| Pipeline.FirstFailurePrefix | src/airport/controller/PassengerController.java:43-81 | checks after the first failure are never consulted |
| Pipeline.VerdictAt | src/airport/controller/PassengerController.java:43-81 | the response to the first failure is its status and message, without data |
| Pipeline.VerdictNone | src/airport/controller/PassengerController.java:83-100 | when every check passes, the response is the success response |
| Pipeline.VerdictSuccess | src/airport/response/Response.java:41-44 | with error statuses on the checks, the response is a success exactly when no check fails, and a failure carries no data |
| PassengerControl.IdLessIsStrictTotalOrder | src/airport/controller/PassengerController.java:174 | ascending numeric id order is a strict total order |
| PassengerControl.IsValidId | src/airport/controller/PassengerController.java:44-47 | an id passes the check exactly when 0 <= id < 10^15 |
| PassengerControl.IsValidPhoneCode | src/airport/controller/PassengerController.java:67-71 | a phone code passes exactly when 0 <= code <= 999 |
| PassengerControl.IsValidPhone | src/airport/controller/PassengerController.java:73-76 | a phone passes exactly when 0 <= phone <= 99 999 999 999 |
| PassengerControl.RegistrationChecks | src/airport/controller/PassengerController.java:43-81 | the seven checks of `registerPassenger` in source order: only the second (the id is not stored) answers CONFLICT, every other answers BAD_REQUEST |
| PassengerControl.UpdateChecks | src/airport/controller/PassengerController.java:117-148 | the six checks of `updatePassenger` in source order: the first (the id is stored) answers NOT_FOUND, every other answers BAD_REQUEST |
| PassengerControl.UpdateReappliesRegistrationChecks | src/airport/controller/PassengerController.java:123-148 | after its existence check, an update runs registration's field checks, in the same order |
| PassengerControl.RegisterChecksFormatFirst | src/airport/controller/PassengerController.java:44-47 | a negative id or one of more than 15 digits is reported first, as BAD_REQUEST, whatever the store holds |
| PassengerControl.RegisterChecksConflict | src/airport/controller/PassengerController.java:48-51 | CONFLICT comes exactly for a well-formed id already stored; every other failure is BAD_REQUEST |
| PassengerControl.RegisterChecksAccept | src/airport/controller/PassengerController.java:43-81 | a registration passes every check exactly when the id is new and the described passenger is well formed |
| PassengerControl.UpdateChecksExistenceFirst | src/airport/controller/PassengerController.java:117-122 | an unknown id is reported first, as NOT_FOUND, before any field check |
| PassengerControl.UpdateChecksAccept | src/airport/controller/PassengerController.java:117-148 | an update passes every check exactly when the id is stored and the new passenger is well formed |
| PassengerControl.RegistrationOutcome | src/airport/controller/PassengerController.java:43-100 | success (CREATED, with the passenger) exactly when accepted; otherwise an error without data |
| PassengerControl.UpdateOutcome | src/airport/controller/PassengerController.java:117-170 | success (OK, with the updated passenger) exactly when accepted; otherwise an error without data |
| PassengerControl.PassengerController.constructor | src/airport/controller/PassengerController.java:21-23 | the controller starts with an empty store, ordered by id |
| PassengerControl.PassengerController.RegisterPassenger | src/airport/controller/PassengerController.java:34-101 | the response is the first failing check's, or CREATED with the passenger; the store changes only on success, gaining exactly that passenger; only well-formed passengers are stored |
| PassengerControl.PassengerController.UpdatePassenger | src/airport/controller/PassengerController.java:108-171 | the response is the first failing check's, or OK with the passenger; on success the id is kept, the six other fields are replaced and no other passenger changes; on failure nothing changes |
| PassengerControl.PassengerController.GetAllPassengers | src/airport/controller/PassengerController.java:173-192 | OK, with every stored passenger once, by id ascending, each equal to the stored one |
| PlaneControl.CreationChecks | src/airport/controller/PlaneController.java:37-58 | the four checks of `createPlane` in source order: only the second (the id is not stored) answers CONFLICT, every other answers BAD_REQUEST |
| PlaneControl.CreationChecksFormatFirst | src/airport/controller/PlaneController.java:38-41 | an id that is not two letters A-Z and five digits is reported first, as BAD_REQUEST |
| PlaneControl.CreationChecksConflict | src/airport/controller/PlaneController.java:43-46 | CONFLICT comes exactly for a well-formed id already stored; every other failure is BAD_REQUEST |
| PlaneControl.CreationChecksAccept | src/airport/controller/PlaneController.java:37-58 | a plane passes every check exactly when its id is new and it is well formed, which includes positive capacity |
| PlaneControl.CreationOutcome | src/airport/controller/PlaneController.java:37-74 | success (CREATED, with the plane) exactly when accepted; otherwise an error without data |
| PlaneControl.PlaneController.constructor | src/airport/controller/PlaneController.java:22-24 | the controller starts with an empty store |
| PlaneControl.PlaneController.CreatePlane | src/airport/controller/PlaneController.java:32-75 | the response is the first failing check's, or CREATED with the plane; the store changes only on success, gaining exactly that plane; every stored plane is well formed |
| PlaneControl.PlaneController.GetAllPlanes | src/airport/controller/PlaneController.java:77-94 | OK, with every stored plane once, ordered by id, each equal to the stored one |
| LocationControl.CreationChecks | src/airport/controller/LocationController.java:37-66 | the six checks of `createLocation` in source order: only the second (the id is not stored) answers CONFLICT, every other answers BAD_REQUEST |
| LocationControl.CreationChecksFormatFirst | src/airport/controller/LocationController.java:38-41 | an id that is not exactly three letters A-Z is reported first, as BAD_REQUEST |
| LocationControl.CreationChecksConflict | src/airport/controller/LocationController.java:42-45 | CONFLICT comes exactly for a well-formed id already stored; every other failure is BAD_REQUEST |
| LocationControl.CreationChecksLatitudeFirst | src/airport/controller/LocationController.java:54-61 | an out-of-range latitude is reported before the longitude is looked at |
| LocationControl.CreationChecksAccept | src/airport/controller/LocationController.java:37-66 | a location passes every check exactly when its id is three letters A-Z and new, its fields are not blank, its coordinates are in range and each times 10^4 is whole |
| LocationControl.CreationOutcome | src/airport/controller/LocationController.java:37-83 | success (CREATED, with the location) exactly when accepted; otherwise an error without data |
| LocationControl.LocationController.constructor | src/airport/controller/LocationController.java:27-29 | the controller starts with an empty store |
| LocationControl.LocationController.CreateLocation | src/airport/controller/LocationController.java:31-84 | the response is the first failing check's, or CREATED with the location; the store changes only on success, gaining exactly that location; every stored location is within all bounds |
| LocationControl.LocationController.GetAllLocations | src/airport/controller/LocationController.java:86-100 | OK, with every stored location once, each equal to the stored one |

## Left out

- Flight scheduling and `FlightController`: FlightController.java is not part of this model.
- `JsonDataLoader`: file reading, JSON parsing and error logging are I/O, so the loader is not modelled.
- `null` strings: Dafny strings are values and cannot be null, so the `x == null ||` halves of the checks are not modelled.
- Defensive cloning: entities are Dafny datatypes, so a copy equals the original. This also covers the `Response` fields, which are final and cannot change.
- `Passenger` setters: they are modelled as field updates on a value, then `update` stores the result. Because the old entity is a value, the model does not capture aliasing, i.e. the in-place change of the object the store already holds.
- Latitude and longitude: they are `double`, read by `BigDecimal.valueOf(double)`, that is, as the decimal `Double.toString` renders. The model takes each coordinate as that exact decimal, an unscaled integer plus a scale; `DecimalScale` and `Value` depend only on the number, not on how the digits were chosen. Floating-point rounding and infinities are not modelled.
- NaN coordinates: a NaN passes both range checks (src/airport/controller/LocationController.java:54 and :58), because every comparison with NaN is false, and `BigDecimal.valueOf(NaN)` at :104 then throws `NumberFormatException` out of `createLocation`, with no response, unless the latitude is a number with more than four places, in which case the `||` at :63 answers BAD_REQUEST before the longitude is read. The model has no NaN, so this exception path is not modelled.
- Unicode: `StringLess` compares `char` values. Java compares UTF-16 code units, and the two orders differ only outside the Basic Multilingual Plane.
- The repositories: modelled as a map from id to entity; a duplicate id in `save` or a missing id in `update` answers with an absent result, which the controllers' own checks never let happen.
- LocationControl.LocationController.GetAllLocations: the source promises no order for locations. The model lists them in the store's id order.
- Concurrency: none is present in the modelled code.
