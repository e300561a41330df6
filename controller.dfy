/**
 * The route handlers of `TeamsController` (src/teams/teams.controller.ts) over a
 * `TeamsService`. Each handler runs its guard chain, calls the service only when
 * every guard passes, and maps a thrown service error to an HTTP error.
 *
 * The handlers `Create`, `Update` and `Delete` take as `lookup` the value their
 * uniqueness or existence check tests; as written that is the un-awaited
 * `findOne(...)`, i.e. `PendingLookup`. `CreateAwaited`, `UpdateAwaited` and
 * `DeleteAwaited` are the corrected handlers, which await the lookup.
 */
module Controller {
  import opened TeamStore
  import opened Guards

  /** What a handler answers: a status with a body, or a thrown HTTP error. */
  datatype Response<T> = Reply(status: int, body: T) | Error(reason: Reason)

  const OK := 200
  const CREATED := 201

  /** The fields a validated body hands to the service. */
  function DraftOf(b: Body): Draft
    requires WellTyped(b)
  {
    Draft(Some(b.name.s), Some(b.base.s), Some(b.championshipsWon.n))
  }

  /** What an awaited `findOne` gives the guard: a document (an object) or null. */
  function Resolved(o: Option<Team>): (v: JsValue)
    ensures Truthy(v) <==> o.Some?
  {
    if o.Some? then Obj else Absent
  }

  class TeamsController {
    const service: TeamsService

    constructor(service: TeamsService)
      ensures this.service == service
    {
      this.service := service;
    }

    /** POST /teams. */
    method Create(body: Body, lookup: JsValue, newId: string) returns (resp: Response<Team>)
      modifies service`docs
      ensures CreateGuards(body, lookup).Reject? ==>
                resp == Error(CreateGuards(body, lookup).reason) && service.docs == old(service.docs)
      ensures CreateGuards(body, lookup).Pass? ==>
                var t := Team(newId, body.name.s, body.base.s, body.championshipsWon.n);
                if service.online && FirstMatch(old(service.docs), ById, newId).None?
                then resp == Reply(CREATED, t) && service.docs == old(service.docs) + [t]
                else resp == Error(AlreadyExistsOnSave) && service.docs == old(service.docs)
    {
      var check := CreateGuards(body, lookup);
      if check.Reject? {
        return Error(check.reason);
      }
      var saved := service.Create(DraftOf(body), newId);
      match saved
      case Failure =>
        resp := Error(AlreadyExistsOnSave);
      case Ok(t) =>
        resp := Reply(CREATED, t);
    }

    /** GET /teams. */
    method FindAll() returns (resp: Response<seq<Team>>)
      ensures service.online ==> resp == Reply(OK, service.docs)
      ensures !service.online ==> resp == Error(InternalServerError)
    {
      var all := service.FindAll();
      match all
      case Failure =>
        resp := Error(InternalServerError);
      case Ok(teams) =>
        resp := Reply(OK, teams);
    }

    /** GET /teams/:id, where `id` is a Team name; a missing Team is answered with null. */
    method FindOne(id: JsValue) returns (resp: Response<Option<Team>>)
      ensures KeyGuards(id).Reject? ==> resp == Error(KeyGuards(id).reason)
      ensures KeyGuards(id).Pass? && !service.online ==> resp == Error(TeamNotFound)
      ensures KeyGuards(id).Pass? && service.online ==>
                resp.Reply? && resp.status == OK &&
                (resp.body.None? <==> forall t :: t in service.docs ==> t.name != id.s) &&
                (resp.body.Some? ==> resp.body.value in service.docs && resp.body.value.name == id.s)
    {
      var check := KeyGuards(id);
      if check.Reject? {
        return Error(check.reason);
      }
      var found := service.FindOne(id.s);
      match found
      case Failure =>
        resp := Error(TeamNotFound);
      case Ok(o) =>
        resp := Reply(OK, o);
    }

    /** PUT /teams/:id: the path `id` reaches the service as a document `_id`. */
    method Update(id: JsValue, body: Body, lookup: JsValue) returns (resp: Response<Option<Team>>)
      modifies service`docs
      ensures UpdateGuards(id, body, lookup).Reject? ==>
                resp == Error(UpdateGuards(id, body, lookup).reason) && service.docs == old(service.docs)
      ensures UpdateGuards(id, body, lookup).Pass? && !service.online ==>
                resp == Error(TeamNotFound) && service.docs == old(service.docs)
      ensures UpdateGuards(id, body, lookup).Pass? && service.online ==>
                match FirstMatch(old(service.docs), ById, id.s)
                case None => resp == Reply(OK, None) && service.docs == old(service.docs)
                case Some(i) =>
                  var t := Team(old(service.docs)[i].id, body.name.s, body.base.s, body.championshipsWon.n);
                  resp == Reply(OK, Some(t)) && service.docs == old(service.docs)[i := t]
    {
      var check := UpdateGuards(id, body, lookup);
      if check.Reject? {
        return Error(check.reason);
      }
      var updated := service.Update(id.s, DraftOf(body));
      match updated
      case Failure =>
        resp := Error(TeamNotFound);
      case Ok(o) =>
        resp := Reply(OK, o);
    }

    /** DELETE /teams/:id, where `id` is a Team name. */
    method Delete(id: JsValue, lookup: JsValue) returns (resp: Response<Option<Team>>)
      modifies service`docs
      ensures DeleteGuards(id, lookup).Reject? ==>
                resp == Error(DeleteGuards(id, lookup).reason) && service.docs == old(service.docs)
      ensures DeleteGuards(id, lookup).Pass? && !service.online ==>
                resp == Error(TeamNotFound) && service.docs == old(service.docs)
      ensures DeleteGuards(id, lookup).Pass? && service.online ==>
                match FirstMatch(old(service.docs), ByName, id.s)
                case None => resp == Reply(OK, None) && service.docs == old(service.docs)
                case Some(i) =>
                  resp == Reply(OK, Some(old(service.docs)[i])) && service.docs == Without(old(service.docs), i)
    {
      var check := DeleteGuards(id, lookup);
      if check.Reject? {
        return Error(check.reason);
      }
      var removed := service.Delete(id.s);
      match removed
      case Failure =>
        resp := Error(TeamNotFound);
      case Ok(o) =>
        resp := Reply(OK, o);
    }

    /**
     * POST /teams with the uniqueness lookup awaited after the field checks. A
     * lookup that throws is not caught by the handler, so it surfaces as 500.
     */
    method CreateAwaited(body: Body, newId: string) returns (resp: Response<Team>)
      modifies service`docs
      ensures FieldGuards(body).Reject? ==> resp == Error(FieldGuards(body).reason)
      ensures Acceptable(body) && !service.online ==> resp == Error(InternalServerError)
      ensures Acceptable(body) && service.online && Lookup(old(service.docs), body.name.s).Some? ==>
                resp == Error(AlreadyExists)
      ensures resp.Reply? <==>
                Acceptable(body) && service.online && Lookup(old(service.docs), body.name.s).None?
                && FirstMatch(old(service.docs), ById, newId).None?
      ensures resp.Reply? ==>
                resp == Reply(CREATED, Team(newId, body.name.s, body.base.s, body.championshipsWon.n))
                && service.docs == old(service.docs) + [resp.body]
      ensures resp.Reply? ==> Lookup(service.docs, body.name.s) == Some(resp.body)
      ensures resp.Error? ==> service.docs == old(service.docs)
      ensures UniqueNames(old(service.docs)) ==> UniqueNames(service.docs)
    {
      var fields := FieldGuards(body);
      if fields.Reject? {
        return Error(fields.reason);
      }
      var found := service.FindOne(body.name.s);
      match found
      case Failure =>
        resp := Error(InternalServerError);
      case Ok(o) =>
        ghost var before := service.docs;
        resp := Create(body, Resolved(o), newId);
        if resp.Reply? && UniqueNames(before) {
          AppendKeepsUnique(before, resp.body);
        }
    }

    /**
     * PUT /teams/:id with the uniqueness lookup awaited, and the Team selected by
     * its name. The uniqueness check still rejects a body that keeps the name.
     */
    method UpdateAwaited(id: JsValue, body: Body) returns (resp: Response<Option<Team>>)
      modifies service`docs
      ensures UpdateGuards(id, body, Absent).Reject? ==>
                resp == Error(UpdateGuards(id, body, Absent).reason) && service.docs == old(service.docs)
      ensures UpdateGuards(id, body, Absent).Pass? && !service.online ==>
                resp == Error(InternalServerError) && service.docs == old(service.docs)
      ensures UpdateGuards(id, body, Absent).Pass? && service.online
              && Lookup(old(service.docs), body.name.s).Some? ==>
                resp == Error(AlreadyExists) && service.docs == old(service.docs)
      ensures UpdateGuards(id, body, Absent).Pass? && service.online
              && Lookup(old(service.docs), body.name.s).None? ==>
                match FirstMatch(old(service.docs), ByName, id.s)
                case None => resp == Reply(OK, None) && service.docs == old(service.docs)
                case Some(i) =>
                  var t := Team(old(service.docs)[i].id, body.name.s, body.base.s, body.championshipsWon.n);
                  resp == Reply(OK, Some(t)) && service.docs == old(service.docs)[i := t]
      ensures UniqueNames(old(service.docs)) ==> UniqueNames(service.docs)
    {
      // every check before the uniqueness check: a falsy lookup lets that one through
      var early := UpdateGuards(id, body, Absent);
      if early.Reject? {
        return Error(early.reason);
      }
      var found := service.FindOne(body.name.s);
      if found.Failure? {
        return Error(InternalServerError);
      }
      if found.value.Some? {
        return Error(AlreadyExists);
      }
      ghost var before := service.docs;
      var updated := service.UpdateByName(id.s, DraftOf(body));
      match updated
      case Failure =>
        resp := Error(TeamNotFound);
      case Ok(o) =>
        resp := Reply(OK, o);
      if FirstMatch(before, ByName, id.s).Some? {
        var i := FirstMatch(before, ByName, id.s).value;
        assert forall t :: t in before ==> t.name != body.name.s;
        assert forall j :: 0 <= j < |before| && j != i ==> before[j].name != body.name.s by {
          forall j | 0 <= j < |before| && j != i
            ensures before[j].name != body.name.s
          {
            assert before[j] in before;
          }
        }
        if UniqueNames(before) {
          ReplaceKeepsUnique(before, i, service.docs[i]);
        }
      }
    }

    /**
     * DELETE /teams/:id with the existence lookup awaited: a Team that is not
     * stored is answered with 404 "This team does not exist".
     */
    method DeleteAwaited(id: JsValue) returns (resp: Response<Option<Team>>)
      modifies service`docs
      ensures KeyGuards(id).Reject? ==> resp == Error(KeyGuards(id).reason) && service.docs == old(service.docs)
      ensures KeyGuards(id).Pass? && !service.online ==>
                resp == Error(InternalServerError) && service.docs == old(service.docs)
      ensures KeyGuards(id).Pass? && service.online && Lookup(old(service.docs), id.s).None? ==>
                resp == Error(DoesNotExist) && service.docs == old(service.docs)
      ensures KeyGuards(id).Pass? && service.online && Lookup(old(service.docs), id.s).Some? ==>
                resp == Reply(OK, Lookup(old(service.docs), id.s))
                && service.docs == Without(old(service.docs), FirstMatch(old(service.docs), ByName, id.s).value)
      ensures UniqueNames(old(service.docs)) ==> UniqueNames(service.docs)
      ensures UniqueNames(old(service.docs)) && resp.Reply? ==> Lookup(service.docs, id.s).None?
    {
      var keys := KeyGuards(id);
      if keys.Reject? {
        return Error(keys.reason);
      }
      var found := service.FindOne(id.s);
      match found
      case Failure =>
        resp := Error(InternalServerError);
      case Ok(o) =>
        ghost var before := service.docs;
        resp := Delete(id, Resolved(o));
        if resp.Reply? && UniqueNames(before) {
          UniqueCountsOne(before, id.s);
          var i := FirstMatch(before, ByName, id.s).value;
          DeleteThenFind(before, i, id.s);
          WithoutKeepsUnique(before, i);
        }
    }
  }
}
