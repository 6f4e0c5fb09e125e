/**
 * The plane registry (src/airport/controller/PlaneController.java): creation checks the id
 * pattern, uniqueness, the text fields and the capacity, in that order, and saves only a
 * plane that passes them all.
 */
module PlaneControl {
  import opened Optional
  import opened JavaBase
  import opened StatusCodes
  import opened Responses
  import opened Pipeline
  import opened KeyedStore
  import opened IdPatterns

  datatype Plane = Plane(id: string, brand: string, model: string, maxCapacity: Int32, airline: string)

  /** The repository key of a plane. */
  function PlaneId(p: Plane): string {
    p.id
  }

  const ID_MESSAGE := "El ID debe tener formato XXYYYYY (2 letras mayúsculas y 5 dígitos)"
  const FIELDS_MESSAGE := "Brand, Model y Airline no pueden estar vacíos"
  const CAPACITY_MESSAGE := "Max Capacity debe ser un entero mayor que 0"
  const CREATED_MESSAGE := "Avión creado exitosamente"
  const LIST_MESSAGE := "Listado de aviones"

  /** The CONFLICT message names the id already taken. */
  function DuplicateMessage(id: string): string {
    "Ya existe un avión con ID=" + id
  }

  /** A plane that every check accepts: what the store may hold. */
  predicate WellFormed(p: Plane) {
    && Matches(p.id, PLANE_ID_PATTERN)
    && !IsBlank(p.brand) && !IsBlank(p.model) && !IsBlank(p.airline)
    && p.maxCapacity > 0
  }

  /** The checks of `createPlane`, in the order the source runs them. */
  function CreationChecks(
    stored: set<string>, id: string, brand: string, model: string, maxCapacity: Int32, airline: string): (r: seq<Check>)
    ensures |r| == 4
    ensures r[1].status == Conflict && (r[1].passes <==> id !in stored)
    ensures forall i :: 0 <= i < |r| && i != 1 ==> r[i].status == BadRequest
  {
    [ Check(Matches(id, PLANE_ID_PATTERN), BadRequest, ID_MESSAGE),
      Check(id !in stored, Conflict, DuplicateMessage(id)),
      Check(!IsBlank(brand) && !IsBlank(model) && !IsBlank(airline), BadRequest, FIELDS_MESSAGE),
      Check(maxCapacity > 0, BadRequest, CAPACITY_MESSAGE) ]
  }

  /** An id that is not two letters A-Z and five digits is reported first, as BAD_REQUEST, whatever the store holds. */
  lemma CreationChecksFormatFirst(
    stored: set<string>, id: string, brand: string, model: string, maxCapacity: Int32, airline: string)
    requires !(|id| == 7 && (forall i :: 0 <= i < 2 ==> 'A' <= id[i] <= 'Z') && (forall i :: 2 <= i < 7 ==> '0' <= id[i] <= '9'))
    ensures var checks := CreationChecks(stored, id, brand, model, maxCapacity, airline);
            FirstFailure(checks) == Some(0) && checks[0].status == BadRequest
  {
    PlaneIdShape(id);
    FirstFailureAt(CreationChecks(stored, id, brand, model, maxCapacity, airline), 0);
  }

  /** CONFLICT is reported exactly when the id is well formed and already stored. */
  lemma CreationChecksConflict(
    stored: set<string>, id: string, brand: string, model: string, maxCapacity: Int32, airline: string)
    ensures var checks := CreationChecks(stored, id, brand, model, maxCapacity, airline);
            && (FirstFailure(checks).Some? && checks[FirstFailure(checks).value].status == Conflict
                <==> Matches(id, PLANE_ID_PATTERN) && id in stored)
            && (FirstFailure(checks).Some? && checks[FirstFailure(checks).value].status != Conflict ==>
                  checks[FirstFailure(checks).value].status == BadRequest)
  {
    if Matches(id, PLANE_ID_PATTERN) && id in stored {
      FirstFailureAt(CreationChecks(stored, id, brand, model, maxCapacity, airline), 1);
    }
  }

  /** A creation is accepted exactly when the id is new and the plane is well formed. */
  lemma CreationChecksAccept(
    stored: set<string>, id: string, brand: string, model: string, maxCapacity: Int32, airline: string)
    ensures FirstFailure(CreationChecks(stored, id, brand, model, maxCapacity, airline)).None?
            <==> id !in stored && WellFormed(Plane(id, brand, model, maxCapacity, airline))
  {
    var checks := CreationChecks(stored, id, brand, model, maxCapacity, airline);
    if !Matches(id, PLANE_ID_PATTERN) {
      assert !checks[0].passes;
    } else if id in stored {
      assert !checks[1].passes;
    } else if IsBlank(brand) || IsBlank(model) || IsBlank(airline) {
      assert !checks[2].passes;
    } else if maxCapacity <= 0 {
      assert !checks[3].passes;
    }
  }

  /** A creation answers with success, CREATED and the new plane exactly when it is accepted; otherwise with an error and no data. */
  lemma CreationOutcome(
    stored: set<string>, id: string, brand: string, model: string, maxCapacity: Int32, airline: string)
    ensures var p := Plane(id, brand, model, maxCapacity, airline);
            var r := Verdict(CreationChecks(stored, id, brand, model, maxCapacity, airline), Of(Created, CREATED_MESSAGE, p));
            && (r.IsSuccess() <==> id !in stored && WellFormed(p))
            && (r.IsSuccess() ==> r.status == Created && r.data == Some(p))
            && (!r.IsSuccess() ==> r.data.None?)
  {
    var p := Plane(id, brand, model, maxCapacity, airline);
    CreationChecksAccept(stored, id, brand, model, maxCapacity, airline);
    VerdictSuccess(CreationChecks(stored, id, brand, model, maxCapacity, airline), Of(Created, CREATED_MESSAGE, p));
  }

  class PlaneController {
    const repository: Repository<string, Plane>

    /** The store is keyed by plane id, ordered by id, and holds only well-formed planes. */
    ghost predicate Valid()
      reads this, repository
    {
      && repository.Valid()
      && repository.key == PlaneId
      && repository.less == StringLess
      && forall k :: k in repository.entries ==> WellFormed(repository.entries[k])
    }

    constructor ()
      ensures Valid() && fresh(repository) && repository.entries == map[]
    {
      repository := new Repository(PlaneId, StringLess);
    }

    /** `createPlane`. */
    method CreatePlane(id: string, brand: string, model: string, maxCapacity: Int32, airline: string)
      returns (r: Response<Plane>)
      requires Valid()
      modifies repository
      ensures Valid()
      ensures var checks := CreationChecks(old(repository.entries).Keys, id, brand, model, maxCapacity, airline);
              var p := Plane(id, brand, model, maxCapacity, airline);
              && r == Verdict(checks, Of(Created, CREATED_MESSAGE, p))
              && repository.entries == if FirstFailure(checks).None? then old(repository.entries)[id := p]
                                       else old(repository.entries)
    {
      ghost var checks := CreationChecks(repository.entries.Keys, id, brand, model, maxCapacity, airline);
      ghost var success := Of(Created, CREATED_MESSAGE, Plane(id, brand, model, maxCapacity, airline));
      if !Matches(id, PLANE_ID_PATTERN) {
        VerdictAt(checks, 0, success);
        return OfNoData(BadRequest, ID_MESSAGE);
      }
      if repository.FindById(id).Some? {
        VerdictAt(checks, 1, success);
        return OfNoData(Conflict, DuplicateMessage(id));
      }
      if IsBlank(brand) || IsBlank(model) || IsBlank(airline) {
        VerdictAt(checks, 2, success);
        return OfNoData(BadRequest, FIELDS_MESSAGE);
      }
      if maxCapacity <= 0 {
        VerdictAt(checks, 3, success);
        return OfNoData(BadRequest, CAPACITY_MESSAGE);
      }
      VerdictNone(checks, success);
      var saved := repository.Save(Plane(id, brand, model, maxCapacity, airline));
      r := Of(Created, CREATED_MESSAGE, saved.value);
    }

    /** `getAllPlanes`: a copy of every stored plane, ordered by id. */
    method GetAllPlanes() returns (r: Response<seq<Plane>>)
      requires Valid()
      ensures r.status == Ok && r.message == LIST_MESSAGE && r.data.Some?
      ensures |r.data.value| == |repository.entries|
      ensures forall i, j :: 0 <= i < j < |r.data.value| ==> StringLess(r.data.value[i].id, r.data.value[j].id)
      ensures forall i :: 0 <= i < |r.data.value| ==>
                r.data.value[i].id in repository.entries && repository.entries[r.data.value[i].id] == r.data.value[i]
      ensures forall k :: k in repository.entries ==>
                exists i :: 0 <= i < |r.data.value| && r.data.value[i] == repository.entries[k]
    {
      StringLessIsStrictTotalOrder();
      var originals := repository.FindAll();
      r := Of(Ok, LIST_MESSAGE, originals);
    }
  }
}
