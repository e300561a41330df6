/**
 * Concrete request sequences against a newly built collection, showing how the
 * handlers as written and the corrected handlers answer.
 */
module Scenarios {
  import opened TeamStore
  import opened Guards
  import opened Controller

  function Ferrari(): Body
  {
    Body(Str("Ferrari"), Str("Maranello"), Num(16))
  }

  /** As written, POST of a new Team on an empty collection is refused as a duplicate. */
  method PostFerrariAsWritten() returns (resp: Response<Team>, stored: seq<Team>)
    ensures resp == Error(AlreadyExists) && Status(resp.reason) == 400
    ensures stored == []
  {
    var store := new TeamsService([], true);
    var api := new TeamsController(store);
    resp := api.Create(Ferrari(), PendingLookup, "t1");
    stored := store.docs;
  }

  /** With the lookup awaited, POST stores the Team and GET by name returns it. */
  method PostThenGetFerrari() returns (created: Response<Team>, fetched: Response<Option<Team>>)
    ensures created == Reply(CREATED, Team("t1", "Ferrari", "Maranello", 16))
    ensures fetched == Reply(OK, Some(Team("t1", "Ferrari", "Maranello", 16)))
  {
    var store := new TeamsService([], true);
    var api := new TeamsController(store);
    assert Acceptable(Ferrari());
    created := api.CreateAwaited(Ferrari(), "t1");
    ghost var t := Team("t1", "Ferrari", "Maranello", 16);
    assert store.docs == [t];
    assert KeyGuards(Str("Ferrari")).Pass?;
    fetched := api.FindOne(Str("Ferrari"));
    assert t in store.docs;
    assert fetched.body.Some?;
  }

  /** With the lookup awaited, a second POST of the same name is refused and stores nothing. */
  method PostFerrariTwice() returns (second: Response<Team>, stored: seq<Team>)
    ensures second == Error(AlreadyExists)
    ensures stored == [Team("t1", "Ferrari", "Maranello", 16)]
  {
    var store := new TeamsService([], true);
    var api := new TeamsController(store);
    var body := Ferrari();
    FerrariAcceptable(body);
    var first := api.CreateAwaited(body, "t1");
    second := api.CreateAwaited(body, "t2");
    stored := store.docs;
  }

  /** The Ferrari body passes every POST check before the uniqueness check. */
  lemma FerrariAcceptable(b: Body)
    requires b == Ferrari()
    ensures Acceptable(b)
  {
    FerrariLength();
    MaranelloLength();
    assert b.name.s[0] != b.base.s[0];
  }

  /** "Ferrari" has only Basic Multilingual Plane characters, so its length is 7. */
  lemma FerrariLength()
    ensures JsLength("Ferrari") == 7
  {
    JsLengthBmp("Ferrari");
  }

  /**
   * A body whose name equals its base is refused before the store is consulted,
   * by the handler as written and by the awaited one.
   */
  method PostNameEqualsBase() returns (resp: Response<Team>, awaited: Response<Team>, stored: seq<Team>)
    ensures resp == Error(NameEqualsBase) && Status(resp.reason) == 400
    ensures awaited == Error(NameEqualsBase)
    ensures stored == []
  {
    var store := new TeamsService([], false);
    var api := new TeamsController(store);
    var body := Body(Str("Ferrari"), Str("Ferrari"), Num(1));
    resp := api.Create(body, PendingLookup, "t1");
    awaited := api.CreateAwaited(body, "t1");
    stored := store.docs;
  }

  /** As written, DELETE of a Team that was never stored answers 200 with null. */
  method DeleteNopeAsWritten() returns (resp: Response<Option<Team>>)
    ensures resp == Reply(OK, None)
  {
    var store := new TeamsService([], true);
    var api := new TeamsController(store);
    resp := api.Delete(Str("Nope"), PendingLookup);
  }

  /** With the lookup awaited, the same DELETE answers 404. */
  method DeleteNopeAwaited() returns (resp: Response<Option<Team>>)
    ensures resp == Error(DoesNotExist) && Status(resp.reason) == 404
  {
    var store := new TeamsService([], true);
    var api := new TeamsController(store);
    resp := api.DeleteAwaited(Str("Nope"));
  }

  /**
   * The service's `update` selects by `_id`: handed the name of the stored
   * Ferrari it finds nothing and changes nothing; handed its `_id` it updates it.
   */
  method UpdateSelectsById() returns (byName: Result<Option<Team>>, byId: Result<Option<Team>>, stored: seq<Team>)
    ensures byName == Ok(None)
    ensures byId == Ok(Some(Team("t1", "Ferrari", "Modena", 17)))
    ensures stored == [Team("t1", "Ferrari", "Modena", 17)]
  {
    var store := new TeamsService([Team("t1", "Ferrari", "Maranello", 16)], true);
    var change := Draft(Some("Ferrari"), Some("Modena"), Some(17));
    byName := store.Update("Ferrari", change);
    byId := store.Update("t1", change);
    stored := store.docs;
  }

  /**
   * The rename body of `PutRenameAwaited` passes every PUT check before the
   * uniqueness check. The body is a parameter rather than a literal so that the
   * guard chain is not evaluated eagerly on constant arguments; the lengths come
   * from the two lemmas below.
   */
  lemma RenamePasses(b: Body)
    requires b == Body(Str("Scuderia"), Str("Maranello"), Num(17))
    ensures UpdateGuards(Str("Ferrari"), b, Absent).Pass?
  {
    ScuderiaLength();
    MaranelloLength();
    assert b.name.s[0] != b.base.s[0];
    assert Acceptable(b);
  }

  /** "Scuderia" has only Basic Multilingual Plane characters, so its length is 8. */
  lemma ScuderiaLength()
    ensures JsLength("Scuderia") == 8
  {
    JsLengthBmp("Scuderia");
  }

  /** "Maranello" has only Basic Multilingual Plane characters, so its length is 9. */
  lemma MaranelloLength()
    ensures JsLength("Maranello") == 9
  {
    JsLengthBmp("Maranello");
  }

  /** With the corrected update, a rename of the stored Ferrari is applied to it. */
  method PutRenameAwaited() returns (resp: Response<Option<Team>>, stored: seq<Team>)
    ensures resp == Reply(OK, Some(Team("t1", "Scuderia", "Maranello", 17)))
    ensures stored == [Team("t1", "Scuderia", "Maranello", 17)]
  {
    var store := new TeamsService([Team("t1", "Ferrari", "Maranello", 16)], true);
    var api := new TeamsController(store);
    var body := Body(Str("Scuderia"), Str("Maranello"), Num(17));
    RenamePasses(body);
    resp := api.UpdateAwaited(Str("Ferrari"), body);
    stored := store.docs;
  }

  /** Keeping the name on PUT still trips the uniqueness check against the Team itself. */
  method PutUnchangedNameAwaited() returns (resp: Response<Option<Team>>)
    ensures resp == Error(AlreadyExists)
  {
    var store := new TeamsService([Team("t1", "Ferrari", "Maranello", 16)], true);
    var api := new TeamsController(store);
    resp := api.UpdateAwaited(Str("Ferrari"), Body(Str("Ferrari"), Str("Maranello"), Num(17)));
  }
}
