/**
 * The passenger registry (src/airport/controller/PassengerController.java): registration
 * and update run a fixed first-failure-wins list of checks, and only a request that passes
 * them all touches the store.
 */
module PassengerControl {
  import opened Optional
  import opened JavaBase
  import opened Calendar
  import opened StatusCodes
  import opened Responses
  import opened Pipeline
  import opened KeyedStore

  datatype Passenger = Passenger(
    id: Int64,
    firstname: string,
    lastname: string,
    birthDate: Date,
    countryPhoneCode: Int32,
    phone: Int64,
    country: string)

  /** The repository key of a passenger. */
  function PassengerId(p: Passenger): Int64 {
    p.id
  }

  /** Passengers are listed by id, ascending. */
  predicate IdLess(a: Int64, b: Int64) {
    a < b
  }

  lemma IdLessIsStrictTotalOrder()
    ensures StrictTotalOrder(IdLess)
  {
  }

  const ID_MESSAGE := "El ID debe ser ≥0 y tener a lo más 15 dígitos"
  const DUPLICATE_MESSAGE := "Ya existe un pasajero con ese ID"
  const NAMES_MESSAGE := "First name y Last name no pueden estar vacíos"
  const BIRTH_DATE_MESSAGE := "Birthdate inválida"
  const PHONE_CODE_MESSAGE := "Country phone code debe ser ≥0 y ≤3 dígitos"
  const PHONE_MESSAGE := "Phone debe ser ≥0 y ≤11 dígitos"
  const COUNTRY_MESSAGE := "Country no puede estar vacío"
  const REGISTERED_MESSAGE := "Pasajero registrado exitosamente"
  const UPDATED_MESSAGE := "Pasajero actualizado exitosamente"
  const LIST_MESSAGE := "Listado de pasajeros"

  /** The NOT_FOUND message of an update names the id it looked for. */
  function UnknownMessage(id: Int64): string {
    "No existe pasajero con ID=" + ValueOf(id)
  }

  /** The three digit-count limits of the passenger checks, as numbers. */
  lemma Pow10Values()
    ensures Pow10(3) == 1000
    ensures Pow10(11) == 100_000_000_000
    ensures Pow10(15) == 1_000_000_000_000_000
  {
    assert Pow10(1) == 10;
    assert Pow10(2) == 100;
    assert Pow10(3) == 1000;
    assert Pow10(4) == 10_000;
    assert Pow10(5) == 100_000;
    assert Pow10(6) == 1_000_000;
    assert Pow10(7) == 10_000_000;
    assert Pow10(8) == 100_000_000;
    assert Pow10(9) == 1_000_000_000;
    assert Pow10(10) == 10_000_000_000;
    assert Pow10(11) == 100_000_000_000;
    assert Pow10(12) == 1_000_000_000_000;
    assert Pow10(13) == 10_000_000_000_000;
    assert Pow10(14) == 100_000_000_000_000;
  }

  /** The id check `id < 0 || String.valueOf(id).length() > 15`, negated: the ids 0 .. 10^15 - 1. */
  function IsValidId(id: Int64): (b: bool)
    ensures b <==> 0 <= id < 1_000_000_000_000_000
  {
    !(id < 0 || (DecimalLengthBound(id, 15); Pow10Values(); DecimalLength(id) > 15))
  }

  /** The country phone code check: at most three digits, so 0 .. 999. */
  function IsValidPhoneCode(code: Int32): (b: bool)
    ensures b <==> 0 <= code <= 999
  {
    !(code < 0 || (DecimalLengthBound(code, 3); Pow10Values(); DecimalLength(code) > 3))
  }

  /** The phone check: at most eleven digits, so 0 .. 99 999 999 999. */
  function IsValidPhone(phone: Int64): (b: bool)
    ensures b <==> 0 <= phone <= 99_999_999_999
  {
    !(phone < 0 || (DecimalLengthBound(phone, 11); Pow10Values(); DecimalLength(phone) > 11))
  }

  /** A passenger that every check accepts: what the store may hold. */
  predicate WellFormed(p: Passenger) {
    && IsValidId(p.id)
    && !IsBlank(p.firstname) && !IsBlank(p.lastname)
    && IsValidDate(p.birthDate.year, p.birthDate.month, p.birthDate.day)
    && IsValidPhoneCode(p.countryPhoneCode)
    && IsValidPhone(p.phone)
    && !IsBlank(p.country)
  }

  /** Registration: the id format, then uniqueness against the stored ids, then the fields, in the order the source runs them. */
  function RegistrationChecks(
    stored: set<Int64>, id: Int64, firstname: string, lastname: string,
    birthYear: Int32, birthMonth: Int32, birthDay: Int32,
    countryPhoneCode: Int32, phone: Int64, country: string): (r: seq<Check>)
    ensures |r| == 7
    ensures r[1].status == Conflict && (r[1].passes <==> id !in stored)
    ensures forall i :: 0 <= i < |r| && i != 1 ==> r[i].status == BadRequest
  {
    [ Check(IsValidId(id), BadRequest, ID_MESSAGE),
      Check(id !in stored, Conflict, DUPLICATE_MESSAGE),
      Check(!IsBlank(firstname) && !IsBlank(lastname), BadRequest, NAMES_MESSAGE),
      Check(LocalDateOf(birthYear, birthMonth, birthDay).Some?, BadRequest, BIRTH_DATE_MESSAGE),
      Check(IsValidPhoneCode(countryPhoneCode), BadRequest, PHONE_CODE_MESSAGE),
      Check(IsValidPhone(phone), BadRequest, PHONE_MESSAGE),
      Check(!IsBlank(country), BadRequest, COUNTRY_MESSAGE) ]
  }

  /** Update: the passenger must exist, then the field checks of registration. */
  function UpdateChecks(
    stored: set<Int64>, id: Int64, firstname: string, lastname: string,
    birthYear: Int32, birthMonth: Int32, birthDay: Int32,
    countryPhoneCode: Int32, phone: Int64, country: string): (r: seq<Check>)
    ensures |r| == 6
    ensures r[0].status == NotFound && (r[0].passes <==> id in stored)
    ensures forall i :: 0 <= i < |r| && i != 0 ==> r[i].status == BadRequest
  {
    [ Check(id in stored, NotFound, UnknownMessage(id)),
      Check(!IsBlank(firstname) && !IsBlank(lastname), BadRequest, NAMES_MESSAGE),
      Check(LocalDateOf(birthYear, birthMonth, birthDay).Some?, BadRequest, BIRTH_DATE_MESSAGE),
      Check(IsValidPhoneCode(countryPhoneCode), BadRequest, PHONE_CODE_MESSAGE),
      Check(IsValidPhone(phone), BadRequest, PHONE_MESSAGE),
      Check(!IsBlank(country), BadRequest, COUNTRY_MESSAGE) ]
  }

  /** An update re-applies exactly the field checks of registration, in the same order, after its existence check. */
  lemma UpdateReappliesRegistrationChecks(
    stored: set<Int64>, id: Int64, firstname: string, lastname: string,
    birthYear: Int32, birthMonth: Int32, birthDay: Int32,
    countryPhoneCode: Int32, phone: Int64, country: string)
    ensures UpdateChecks(stored, id, firstname, lastname, birthYear, birthMonth, birthDay, countryPhoneCode, phone, country)[1..]
            == RegistrationChecks(stored, id, firstname, lastname, birthYear, birthMonth, birthDay,
                                  countryPhoneCode, phone, country)[2..]
  {
  }

  /** The passenger a request describes. */
  function Requested(
    id: Int64, firstname: string, lastname: string,
    birthYear: Int32, birthMonth: Int32, birthDay: Int32,
    countryPhoneCode: Int32, phone: Int64, country: string): Passenger
  {
    Passenger(id, firstname, lastname, Date(birthYear, birthMonth, birthDay), countryPhoneCode, phone, country)
  }

  /** A malformed id is reported first, as BAD_REQUEST, whatever the store holds. */
  lemma RegisterChecksFormatFirst(
    stored: set<Int64>, id: Int64, firstname: string, lastname: string,
    birthYear: Int32, birthMonth: Int32, birthDay: Int32,
    countryPhoneCode: Int32, phone: Int64, country: string)
    requires id < 0 || id >= 1_000_000_000_000_000
    ensures var checks := RegistrationChecks(stored, id, firstname, lastname, birthYear, birthMonth, birthDay,
                                             countryPhoneCode, phone, country);
            FirstFailure(checks) == Some(0) && checks[0].status == BadRequest
  {
    var checks := RegistrationChecks(stored, id, firstname, lastname, birthYear, birthMonth, birthDay,
                                     countryPhoneCode, phone, country);
    FirstFailureAt(checks, 0);
  }

  /** CONFLICT is reported exactly when the id is well formed and already stored. */
  lemma RegisterChecksConflict(
    stored: set<Int64>, id: Int64, firstname: string, lastname: string,
    birthYear: Int32, birthMonth: Int32, birthDay: Int32,
    countryPhoneCode: Int32, phone: Int64, country: string)
    ensures var checks := RegistrationChecks(stored, id, firstname, lastname, birthYear, birthMonth, birthDay,
                                             countryPhoneCode, phone, country);
            && (FirstFailure(checks).Some? && checks[FirstFailure(checks).value].status == Conflict
                <==> 0 <= id < 1_000_000_000_000_000 && id in stored)
            && (FirstFailure(checks).Some? && checks[FirstFailure(checks).value].status != Conflict ==>
                  checks[FirstFailure(checks).value].status == BadRequest)
  {
    var checks := RegistrationChecks(stored, id, firstname, lastname, birthYear, birthMonth, birthDay,
                                     countryPhoneCode, phone, country);
    if 0 <= id < 1_000_000_000_000_000 && id in stored {
      FirstFailureAt(checks, 1);
    }
  }

  /** A registration is accepted exactly when the id is new and the passenger it describes is well formed. */
  lemma RegisterChecksAccept(
    stored: set<Int64>, id: Int64, firstname: string, lastname: string,
    birthYear: Int32, birthMonth: Int32, birthDay: Int32,
    countryPhoneCode: Int32, phone: Int64, country: string)
    ensures FirstFailure(RegistrationChecks(stored, id, firstname, lastname, birthYear, birthMonth, birthDay,
                                            countryPhoneCode, phone, country)).None?
            <==> id !in stored && WellFormed(Requested(id, firstname, lastname, birthYear, birthMonth, birthDay,
                                                       countryPhoneCode, phone, country))
  {
    var checks := RegistrationChecks(stored, id, firstname, lastname, birthYear, birthMonth, birthDay,
                                     countryPhoneCode, phone, country);
    if !IsValidId(id) {
      assert !checks[0].passes;
    } else if id in stored {
      assert !checks[1].passes;
    } else if IsBlank(firstname) || IsBlank(lastname) {
      assert !checks[2].passes;
    } else if !IsValidDate(birthYear, birthMonth, birthDay) {
      assert !checks[3].passes;
    } else if !IsValidPhoneCode(countryPhoneCode) {
      assert !checks[4].passes;
    } else if !IsValidPhone(phone) {
      assert !checks[5].passes;
    } else if IsBlank(country) {
      assert !checks[6].passes;
    }
  }

  /** An unknown id is reported first, as NOT_FOUND, before any field is looked at. */
  lemma UpdateChecksExistenceFirst(
    stored: set<Int64>, id: Int64, firstname: string, lastname: string,
    birthYear: Int32, birthMonth: Int32, birthDay: Int32,
    countryPhoneCode: Int32, phone: Int64, country: string)
    requires id !in stored
    ensures var checks := UpdateChecks(stored, id, firstname, lastname, birthYear, birthMonth, birthDay,
                                       countryPhoneCode, phone, country);
            FirstFailure(checks) == Some(0) && checks[0].status == NotFound
  {
    var checks := UpdateChecks(stored, id, firstname, lastname, birthYear, birthMonth, birthDay,
                               countryPhoneCode, phone, country);
    FirstFailureAt(checks, 0);
  }

  /** An update is accepted exactly when the id is stored and the new fields are well formed. */
  lemma UpdateChecksAccept(
    stored: set<Int64>, id: Int64, firstname: string, lastname: string,
    birthYear: Int32, birthMonth: Int32, birthDay: Int32,
    countryPhoneCode: Int32, phone: Int64, country: string)
    requires forall k :: k in stored ==> IsValidId(k)
    ensures FirstFailure(UpdateChecks(stored, id, firstname, lastname, birthYear, birthMonth, birthDay,
                                      countryPhoneCode, phone, country)).None?
            <==> id in stored && WellFormed(Requested(id, firstname, lastname, birthYear, birthMonth, birthDay,
                                                      countryPhoneCode, phone, country))
  {
    var checks := UpdateChecks(stored, id, firstname, lastname, birthYear, birthMonth, birthDay,
                               countryPhoneCode, phone, country);
    if id !in stored {
      assert !checks[0].passes;
    } else if IsBlank(firstname) || IsBlank(lastname) {
      assert !checks[1].passes;
    } else if !IsValidDate(birthYear, birthMonth, birthDay) {
      assert !checks[2].passes;
    } else if !IsValidPhoneCode(countryPhoneCode) {
      assert !checks[3].passes;
    } else if !IsValidPhone(phone) {
      assert !checks[4].passes;
    } else if IsBlank(country) {
      assert !checks[5].passes;
    }
  }

  /** A registration answers with success, CREATED and the new passenger exactly when it is accepted; otherwise with an error and no data. */
  lemma RegistrationOutcome(
    stored: set<Int64>, id: Int64, firstname: string, lastname: string,
    birthYear: Int32, birthMonth: Int32, birthDay: Int32,
    countryPhoneCode: Int32, phone: Int64, country: string)
    ensures var p := Requested(id, firstname, lastname, birthYear, birthMonth, birthDay, countryPhoneCode, phone, country);
            var checks := RegistrationChecks(stored, id, firstname, lastname, birthYear, birthMonth, birthDay,
                                            countryPhoneCode, phone, country);
            var r := Verdict(checks, Of(Created, REGISTERED_MESSAGE, p));
            && (r.IsSuccess() <==> id !in stored && WellFormed(p))
            && (r.IsSuccess() ==> r.status == Created && r.data == Some(p))
            && (!r.IsSuccess() ==> r.data.None?)
  {
    var p := Requested(id, firstname, lastname, birthYear, birthMonth, birthDay, countryPhoneCode, phone, country);
    var checks := RegistrationChecks(stored, id, firstname, lastname, birthYear, birthMonth, birthDay,
                                    countryPhoneCode, phone, country);
    RegisterChecksAccept(stored, id, firstname, lastname, birthYear, birthMonth, birthDay, countryPhoneCode, phone, country);
    VerdictSuccess(checks, Of(Created, REGISTERED_MESSAGE, p));
  }

  /** An update answers with success, OK and the updated passenger exactly when it is accepted; otherwise with an error and no data. */
  lemma UpdateOutcome(
    stored: set<Int64>, id: Int64, firstname: string, lastname: string,
    birthYear: Int32, birthMonth: Int32, birthDay: Int32,
    countryPhoneCode: Int32, phone: Int64, country: string)
    requires forall k :: k in stored ==> IsValidId(k)
    ensures var p := Requested(id, firstname, lastname, birthYear, birthMonth, birthDay, countryPhoneCode, phone, country);
            var checks := UpdateChecks(stored, id, firstname, lastname, birthYear, birthMonth, birthDay,
                                            countryPhoneCode, phone, country);
            var r := Verdict(checks, Of(Ok, UPDATED_MESSAGE, p));
            && (r.IsSuccess() <==> id in stored && WellFormed(p))
            && (r.IsSuccess() ==> r.status == Ok && r.data == Some(p))
            && (!r.IsSuccess() ==> r.data.None?)
  {
    var p := Requested(id, firstname, lastname, birthYear, birthMonth, birthDay, countryPhoneCode, phone, country);
    var checks := UpdateChecks(stored, id, firstname, lastname, birthYear, birthMonth, birthDay,
                                    countryPhoneCode, phone, country);
    UpdateChecksAccept(stored, id, firstname, lastname, birthYear, birthMonth, birthDay, countryPhoneCode, phone, country);
    VerdictSuccess(checks, Of(Ok, UPDATED_MESSAGE, p));
  }

  class PassengerController {
    const repository: Repository<Int64, Passenger>

    /** The store is keyed by passenger id, ordered by id, and holds only well-formed passengers. */
    ghost predicate Valid()
      reads this, repository
    {
      && repository.Valid()
      && repository.key == PassengerId
      && repository.less == IdLess
      && forall k :: k in repository.entries ==> WellFormed(repository.entries[k])
    }

    constructor ()
      ensures Valid() && fresh(repository) && repository.entries == map[]
    {
      repository := new Repository(PassengerId, IdLess);
    }

    /** `registerPassenger`. */
    method RegisterPassenger(
      id: Int64, firstname: string, lastname: string,
      birthYear: Int32, birthMonth: Int32, birthDay: Int32,
      countryPhoneCode: Int32, phone: Int64, country: string)
      returns (r: Response<Passenger>)
      requires Valid()
      modifies repository
      ensures Valid()
      ensures var checks := RegistrationChecks(old(repository.entries).Keys, id, firstname, lastname,
                                               birthYear, birthMonth, birthDay, countryPhoneCode, phone, country);
              var p := Requested(id, firstname, lastname, birthYear, birthMonth, birthDay, countryPhoneCode, phone, country);
              && r == Verdict(checks, Of(Created, REGISTERED_MESSAGE, p))
              && repository.entries == if FirstFailure(checks).None? then old(repository.entries)[id := p]
                                       else old(repository.entries)
    {
      ghost var checks := RegistrationChecks(repository.entries.Keys, id, firstname, lastname,
                                             birthYear, birthMonth, birthDay, countryPhoneCode, phone, country);
      ghost var success := Of(Created, REGISTERED_MESSAGE, Requested(id, firstname, lastname, birthYear, birthMonth, birthDay, countryPhoneCode, phone, country));
      if !IsValidId(id) {
        VerdictAt(checks, 0, success);
        return OfNoData(BadRequest, ID_MESSAGE);
      }
      if repository.FindById(id).Some? {
        VerdictAt(checks, 1, success);
        return OfNoData(Conflict, DUPLICATE_MESSAGE);
      }
      if IsBlank(firstname) || IsBlank(lastname) {
        VerdictAt(checks, 2, success);
        return OfNoData(BadRequest, NAMES_MESSAGE);
      }
      var birthDate := LocalDateOf(birthYear, birthMonth, birthDay);
      if birthDate.None? {
        VerdictAt(checks, 3, success);
        return OfNoData(BadRequest, BIRTH_DATE_MESSAGE);
      }
      if !IsValidPhoneCode(countryPhoneCode) {
        VerdictAt(checks, 4, success);
        return OfNoData(BadRequest, PHONE_CODE_MESSAGE);
      }
      if !IsValidPhone(phone) {
        VerdictAt(checks, 5, success);
        return OfNoData(BadRequest, PHONE_MESSAGE);
      }
      if IsBlank(country) {
        VerdictAt(checks, 6, success);
        return OfNoData(BadRequest, COUNTRY_MESSAGE);
      }
      VerdictNone(checks, success);
      var saved := repository.Save(Passenger(id, firstname, lastname, birthDate.value, countryPhoneCode, phone, country));
      r := Of(Created, REGISTERED_MESSAGE, saved.value);
    }

    /** `updatePassenger`: the id is kept, the six other fields are replaced. */
    method UpdatePassenger(
      id: Int64, firstname: string, lastname: string,
      birthYear: Int32, birthMonth: Int32, birthDay: Int32,
      countryPhoneCode: Int32, phone: Int64, country: string)
      returns (r: Response<Passenger>)
      requires Valid()
      modifies repository
      ensures Valid()
      ensures var checks := UpdateChecks(old(repository.entries).Keys, id, firstname, lastname,
                                               birthYear, birthMonth, birthDay, countryPhoneCode, phone, country);
              var p := Requested(id, firstname, lastname, birthYear, birthMonth, birthDay, countryPhoneCode, phone, country);
              && r == Verdict(checks, Of(Ok, UPDATED_MESSAGE, p))
              && repository.entries == if FirstFailure(checks).None? then old(repository.entries)[id := p]
                                       else old(repository.entries)
    {
      ghost var checks := UpdateChecks(repository.entries.Keys, id, firstname, lastname,
                                       birthYear, birthMonth, birthDay, countryPhoneCode, phone, country);
      ghost var success := Of(Ok, UPDATED_MESSAGE, Requested(id, firstname, lastname, birthYear, birthMonth, birthDay, countryPhoneCode, phone, country));
      var found := repository.FindById(id);
      if found.None? {
        VerdictAt(checks, 0, success);
        return OfNoData(NotFound, UnknownMessage(id));
      }
      var existing := found.value;
      if IsBlank(firstname) || IsBlank(lastname) {
        VerdictAt(checks, 1, success);
        return OfNoData(BadRequest, NAMES_MESSAGE);
      }
      var birthDate := LocalDateOf(birthYear, birthMonth, birthDay);
      if birthDate.None? {
        VerdictAt(checks, 2, success);
        return OfNoData(BadRequest, BIRTH_DATE_MESSAGE);
      }
      if !IsValidPhoneCode(countryPhoneCode) {
        VerdictAt(checks, 3, success);
        return OfNoData(BadRequest, PHONE_CODE_MESSAGE);
      }
      if !IsValidPhone(phone) {
        VerdictAt(checks, 4, success);
        return OfNoData(BadRequest, PHONE_MESSAGE);
      }
      if IsBlank(country) {
        VerdictAt(checks, 5, success);
        return OfNoData(BadRequest, COUNTRY_MESSAGE);
      }
      VerdictNone(checks, success);
      // the six setters, one field at a time
      existing := existing.(firstname := firstname);
      existing := existing.(lastname := lastname);
      existing := existing.(birthDate := birthDate.value);
      existing := existing.(countryPhoneCode := countryPhoneCode);
      existing := existing.(phone := phone);
      existing := existing.(country := country);
      var updated := repository.Update(existing);
      r := Of(Ok, UPDATED_MESSAGE, updated.value);
    }

    /** `getAllPassengers`: a copy of every stored passenger, by id ascending. */
    method GetAllPassengers() returns (r: Response<seq<Passenger>>)
      requires Valid()
      ensures r.status == Ok && r.message == LIST_MESSAGE && r.data.Some?
      ensures |r.data.value| == |repository.entries|
      ensures forall i, j :: 0 <= i < j < |r.data.value| ==> r.data.value[i].id < r.data.value[j].id
      ensures forall i :: 0 <= i < |r.data.value| ==>
                r.data.value[i].id in repository.entries && repository.entries[r.data.value[i].id] == r.data.value[i]
      ensures forall k :: k in repository.entries ==>
                exists i :: 0 <= i < |r.data.value| && r.data.value[i] == repository.entries[k]
    {
      IdLessIsStrictTotalOrder();
      var originals := repository.FindAll();
      r := Of(Ok, LIST_MESSAGE, originals);
    }
  }
}
