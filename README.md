# Team resource: validation chain and Team store

This project models the core of a NestJS/MongoDB service for one resource, the
Team (`name`, `base`, `championshipsWon`). It has two parts.

- **The controller's guard chains** (`TeamsController`). Every handler runs a
  fixed series of early-exit checks on the request before it calls the service.
  The first check that fails decides the HTTP error. Errors thrown by the
  service are mapped to 404 or 500.
- **The Team store** (`TeamsService` over the Mongoose collection). This is a
  sequence of documents in natural order, each with an internal `_id`. Nothing
  in it makes names unique.

Files:

- `teamstore.dfy` (module `TeamStore`): the `Team` document and the `Draft` of
  fields handed to the model. `FirstMatch` and `Lookup` are the query
  semantics. The class `TeamsService` has a `docs: seq<Team>` field and an
  `online` flag. Its methods state the whole new collection. Lemmas cover
  duplicates, delete-then-find and name uniqueness.
- `guards.dfy` (module `Guards`): JavaScript values with explicit truthiness.
  The POST, PUT, GET-by-name and DELETE guard chains are pure functions, each
  tied to a declarative description of what it accepts. Lemmas state the guard
  order.
- `controller.dfy` (module `Controller`): the class `TeamsController` holds
  the route handlers as written, plus corrected handlers that await their
  lookups.
- `scenarios.dfy` (module `Scenarios`): concrete request sequences on a fresh
  collection.

How the model represents the source:

- Request fields are `JsValue`s: `Absent` (undefined or null), `Str`, `Num`,
  `Bool` and `Obj`. `Truthy` is JavaScript truthiness, so `""` and `0` count as
  missing.
- The uniqueness check (POST, PUT) and the existence check (DELETE) test the
  value that `findOne(...)` evaluates to. The source does not `await` it. The
  handlers `Create`, `Update` and `Delete` therefore take that value as a
  parameter, `lookup`. As written it is `PendingLookup`, a Promise object,
  which is always truthy.
- The database can fail. `TeamsService.online == false` makes every store call
  throw (`Failure`).
- Mongoose generates `_id` values. Here the new `_id` is a parameter of
  `Create`, and an `_id` that is already taken makes the save throw.
- Query order is natural (insertion) order, so `findOne` and
  `findOneAndDelete` act on the first match.

In the source, `findOne` and `delete` select by `name`
(src/teams/teams.service.ts:46, 61), `update` selects by `_id` (:54), and
nothing in the schema makes names unique. The PUT route hands the service its
path parameter, the same parameter that GET and DELETE treat as a name.

Lengths (`.length`) are JavaScript lengths: UTF-16 code units, so a character
outside the Basic Multilingual Plane counts as 2 (`Guards.JsLength`).

## Model

| member | source | states |
|---|---|---|
| `TeamStore.FirstMatch` | src/teams/teams.service.ts:46 | the index found holds the key, no earlier document does, and none is found exactly when no document holds the key |
| `TeamStore.Lookup` | src/teams/teams.service.ts:45-47 | `findOne({name})` resolves with a stored document of that name, or null exactly when no stored document has that name |
| `TeamStore.NewDocument` | src/teams/teams.service.ts:31 | the document `new teamModel(dto)` saves as exists exactly when `name` and `base` are present and non-empty (required paths, team.schema.ts:8-12); it carries the given `_id`, the draft's name and base, and the draft's count or 0 when none is given (team.schema.ts:14-15) |
| `TeamStore.Patched` | src/teams/teams.service.ts:54 | the update keeps `_id`, overwrites each field the draft supplies and keeps each field it omits |
| `TeamStore.PatchTwice` | src/teams/teams.service.ts:54 | applying the same update twice gives what applying it once gives |
| `TeamStore.DefaultChampionships` | src/teams/team.schema.ts:14-15 | a document created without `championshipsWon` stores 0 |
| `TeamStore.TeamsService.constructor` | src/teams/teams.service.ts:24 | the service starts over the given collection |
| `TeamStore.TeamsService.Create` | src/teams/teams.service.ts:30-33 | saving appends exactly one document built from the draft and returns it, leaving earlier documents as they were; it throws and changes nothing when the database is down, a required path is missing or the `_id` is taken |
| `TeamStore.TeamsService.FindAll` | src/teams/teams.service.ts:38-40 | returns every stored document in order and changes nothing; throws when the database is down |
| `TeamStore.TeamsService.FindOne` | src/teams/teams.service.ts:45-47 | returns a stored document with the given name, or null exactly when none has it; changes nothing |
| `TeamStore.TeamsService.Update` | src/teams/teams.service.ts:53-55 | selects by `_id`, not by name; overwrites the supplied fields of that one document and returns the post-update document, or returns null and changes nothing; every other document is unchanged |
| `TeamStore.TeamsService.UpdateByName` | src/teams/teams.service.ts:53-55 | the same update, selecting the first document with the given name |
| `TeamStore.TeamsService.Delete` | src/teams/teams.service.ts:60-62 | removes the first document with the given name and returns it, or returns null and changes nothing |
| `TeamStore.CreateAllowsDuplicateName` | src/teams/teams.service.ts:30-33 | inserting a Team whose name is already stored leaves at least two documents with that name |
| `TeamStore.CountNamedAppend` | src/teams/teams.service.ts:30-33 | supporting lemma for `CreateAllowsDuplicateName`: appending a document raises the count of its name by one and leaves other names' counts unchanged |
| `TeamStore.CountNamedPositive` | src/teams/teams.service.ts:46 | supporting lemma for the duplicate and delete-then-find properties: a name held by some document has a positive count |
| `TeamStore.CountNamedZero` | src/teams/teams.service.ts:46 | supporting lemma for `UniqueCountsOne`: a name held by no document has count 0 |
| `TeamStore.OnlyNamed` | src/teams/teams.service.ts:61 | when exactly one document has a name, no document at any other index has it |
| `TeamStore.WithoutAt` | src/teams/teams.service.ts:61 | removing a document keeps every other document in order and removes exactly that one (multiset) |
| `TeamStore.DeleteThenFind` | src/teams/teams.service.ts:46-61 | after deleting the document at `i` named `n` from a store holding exactly one Team named `n`, looking up `n` finds nothing |
| `TeamStore.UniqueCountsOne` | src/teams/teams.service.ts:46 | in a collection with unique names, a stored name occurs exactly once |
| `TeamStore.AppendKeepsUnique` | src/teams/teams.service.ts:30-33 | appending a Team whose name is not stored keeps names unique |
| `TeamStore.ReplaceKeepsUnique` | src/teams/teams.service.ts:53-55 | overwriting one document with a name no other document holds keeps names unique |
| `TeamStore.WithoutKeepsUnique` | src/teams/teams.service.ts:60-62 | deleting a document keeps names unique |
| `Guards.Truthy` | src/teams/teams.controller.ts:17 | JavaScript `!x` (also at :98, :136, :201, :222): a value is falsy exactly when it is undefined/null, `""`, `0` or `false`; objects are truthy |
| `Guards.Status` | src/teams/teams.controller.ts:18-238 | each thrown error's status is 400, 404 or 500; 404 exactly for "This team does not exist" and "Team not found", 500 exactly for the failed save and the findAll failure |
| `Guards.Message` | src/teams/teams.controller.ts:18-238 | the refused duplicate and the failed save share the text "This team already exists"; the name length text is given exactly for `NameLength`, which both the body check and the path key check raise |
| `Guards.JsLength` | src/teams/teams.controller.ts:38 | `.length` counts UTF-16 code units: between one and two per character |
| `Guards.JsLengthBmp` | src/teams/teams.controller.ts:38 | a string of Basic Multilingual Plane characters has one code unit per character |
| `Guards.JsLengthAstral` | src/teams/teams.controller.ts:38 | a string of characters beyond the Basic Multilingual Plane has two code units per character |
| `Guards.SurrogatePairsCountTwice` | src/teams/teams.controller.ts:38-43 | the two-character name "a😀" has length 3 and passes the body checks; eleven emoji have length 22 and are refused for length |
| `Guards.FieldGuards` | src/teams/teams.controller.ts:17-57 | the body checks pass exactly for a valid Team (both strings 3–20 long and different, count ≥ 0) whose count is not 0; every other body gets one of the six body errors |
| `Guards.CreateGuards` | src/teams/teams.controller.ts:17-64 | POST passes exactly when the body is acceptable and the uniqueness check's value is falsy; any other error is the body checks' error |
| `Guards.UpdateGuards` | src/teams/teams.controller.ts:136-183 | PUT passes exactly when the path id is a non-empty string, the body is acceptable and the uniqueness check's value is falsy |
| `Guards.KeyGuards` | src/teams/teams.controller.ts:98-117 | the key checks pass exactly for a string key of length 3–20; otherwise the error is missing, wrong type or length |
| `Guards.DeleteGuards` | src/teams/teams.controller.ts:201-227 | DELETE passes exactly when the key checks pass and the existence check's value is truthy; any other error is the key checks' error |
| `Guards.CreateGuardOrder` | src/teams/teams.controller.ts:17-64 | each POST error is returned if and only if its own check fails and every earlier check passes |
| `Guards.ZeroChampionshipsIsMissing` | src/teams/teams.controller.ts:17-22 | a count of 0 is reported as "Missing parameters", whatever the other fields hold |
| `Guards.NameEqualsBaseRejected` | src/teams/teams.controller.ts:52-57 | a body whose name equals its base and that passes the earlier checks is refused with "Name and base must be different" |
| `Guards.UpdateExtendsCreate` | src/teams/teams.controller.ts:136-148 | a falsy path id or a falsy body field gives "Missing parameters"; a truthy non-string id with a complete body gives "Wrong type of parameters"; a non-empty string id makes the PUT chain equal the POST chain |
| `Guards.UpdateGuardOrder` | src/teams/teams.controller.ts:136-183 | each PUT error is returned if and only if its own check fails and every earlier check passes, the path id counting in the presence and type checks |
| `Guards.KeyGuardOrder` | src/teams/teams.controller.ts:98-117 | each key error is returned if and only if its check is the first to fail |
| `Guards.UnawaitedLookupRejectsValidBodies` | src/teams/teams.controller.ts:59-64 | an un-awaited lookup is truthy, so POST and PUT refuse every body, and every acceptable body is refused with "This team already exists" |
| `Guards.UnawaitedExistenceCheckNeverFires` | src/teams/teams.controller.ts:222-227 | with an un-awaited lookup, the DELETE chain is just the key checks |
| `Controller.Resolved` | src/teams/teams.controller.ts:222 | an awaited lookup is truthy exactly when a document was found |
| `Controller.TeamsController.constructor` | src/teams/teams.controller.ts:10 | the controller works over the given service |
| `Controller.TeamsController.Create` | src/teams/teams.controller.ts:15-76 | a rejected body gets the first failing check's error and the store is unchanged; otherwise exactly one Team with the body's fields is appended (201), or the save throws and the answer is 500 "This team already exists" with the store unchanged |
| `Controller.TeamsController.FindAll` | src/teams/teams.controller.ts:80-91 | answers 200 with every stored Team, or 500 when the store throws |
| `Controller.TeamsController.FindOne` | src/teams/teams.controller.ts:96-129 | a bad key gets its key error; a store failure gives 404; otherwise 200 with a stored Team of that name, or with null exactly when none is stored |
| `Controller.TeamsController.Update` | src/teams/teams.controller.ts:134-195 | a rejected request gets the first failing check's error and the store is unchanged; otherwise the document whose `_id` equals the path id gets the body's fields (200), or the answer is 200 null with nothing changed; a store failure gives 404 |
| `Controller.TeamsController.Delete` | src/teams/teams.controller.ts:199-239 | a rejected key leaves the store unchanged; otherwise the first Team with that name is removed and returned (200), or 200 null when none exists; a store failure gives 404 |
| `Controller.TeamsController.CreateAwaited` | src/teams/teams.controller.ts:15-76 | with the lookup awaited, POST succeeds if and only if the body is acceptable, the database answers, the name is not stored and the `_id` is free; success appends exactly that Team, after which a lookup by that name returns it, and keeps names unique |
| `Controller.TeamsController.UpdateAwaited` | src/teams/teams.controller.ts:134-195 | with the lookup awaited and the Team selected by name, PUT to a name not yet stored renames the first Team with the path name, and rejects a body whose name is stored (including the Team's own name); names stay unique |
| `Controller.TeamsController.DeleteAwaited` | src/teams/teams.controller.ts:199-239 | with the lookup awaited, a Team that is not stored gets 404 "This team does not exist"; a stored one is removed; with unique names, looking up the name afterwards finds nothing |
| `Scenarios.PostFerrariAsWritten` | src/teams/teams.controller.ts:59-64 | as written, POST of Ferrari to an empty store answers 400 "This team already exists" and stores nothing |
| `Scenarios.PostThenGetFerrari` | src/teams/teams.controller.ts:15-129 | with the lookup awaited, POST of Ferrari answers 201 with the stored Team, and GET /teams/Ferrari answers 200 with the same Team |
| `Scenarios.PostFerrariTwice` | src/teams/teams.controller.ts:59-64 | with the lookup awaited, a second POST of the same name is refused as a duplicate, and the store keeps one Ferrari |
| `Scenarios.PostNameEqualsBase` | src/teams/teams.controller.ts:52-57 | POST with name = base = "Ferrari" answers 400 "Name and base must be different", both as written and with the lookup awaited, and stores nothing |
| `Scenarios.DeleteNopeAsWritten` | src/teams/teams.controller.ts:222-238 | as written, DELETE /teams/Nope on an empty store answers 200 with null |
| `Scenarios.DeleteNopeAwaited` | src/teams/teams.controller.ts:222-227 | with the lookup awaited, the same DELETE answers 404 |
| `Scenarios.UpdateSelectsById` | src/teams/teams.service.ts:53-55 | the service `update` handed the stored Ferrari's name finds nothing and changes nothing; handed its `_id` it updates that Team |
| `Scenarios.PutRenameAwaited` | src/teams/teams.controller.ts:178-194 | the corrected PUT renames the stored Ferrari in place and keeps its `_id` |
| `Scenarios.PutUnchangedNameAwaited` | src/teams/teams.controller.ts:178-183 | a PUT that keeps the Team's own name is refused as a duplicate |

## Left out

- Promise scheduling, the NestJS decorators, routing and HTTP exception plumbing are not modelled. Handlers are synchronous methods that return a `Response`, and a thrown `HttpException` is an `Error(reason)` with `Status`/`Message`.
- `console.log` lines and the winston/morgan logging (src/logging/logging.service.ts, src/middlewares/morgane.middleware.ts) are not modelled. They are output only.
- Module and database wiring (src/app.module.ts, src/teams/teams.module.ts) is not modelled. It contains no logic.
- Body fields other than `name`, `base` and `championshipsWon` are not modelled. The schema drops unknown fields but keeps `_id`, so a client-supplied `_id` is not modelled; as written no body reaches the service (src/teams/teams.controller.ts:59, :178).
- Mongoose casting is not modelled. This covers casting the path name to an ObjectId in `findByIdAndUpdate` (a cast error would give 404 instead of 200 null) and casting number-like strings. `_id`s are opaque strings.
- `championshipsWon` is an `int`. Floating-point numbers and NaN are not modelled.
- The window between the uniqueness lookup and the insert is not modelled. It is a concurrency concern, and each handler runs as one atomic step.
- `TeamStore.TeamsService.FindOne`, `Delete` and `Update`: when several documents match, the first in natural order is chosen. MongoDB only promises "some" matching document.
- `Controller.TeamsController.CreateAwaited`, `UpdateAwaited` and `DeleteAwaited`: a store failure during the awaited lookup answers 500 "Internal server error". This is how NestJS reports an uncaught non-HTTP error.

## Findings

The POST/PUT uniqueness checks, the DELETE existence check and the PUT selection
are modelled as written. The corrected handlers sit beside them.

| source | as written | input that shows it | evidently intended | confidence | as-written member | corrected member |
|---|---|---|---|---|---|---|
| src/teams/teams.controller.ts:59 | the uniqueness check tests `findOne(...)` without `await`, and a Promise is always truthy | POST `{name:"Ferrari", base:"Maranello", championshipsWon:16}` to an empty store answers 400 "This team already exists" | refuse only when a Team with that name is stored | high (not executed) | `Scenarios.PostFerrariAsWritten` | `Controller.TeamsController.CreateAwaited` |
| src/teams/teams.controller.ts:178 | the same un-awaited check on PUT refuses every acceptable body | PUT /teams/Ferrari with `{name:"Scuderia", base:"Maranello", championshipsWon:17}` answers 400 "This team already exists" | refuse only when the new name is stored | high (not executed) | `Guards.UnawaitedLookupRejectsValidBodies` | `Controller.TeamsController.UpdateAwaited` |
| src/teams/teams.controller.ts:222 | `!findOne(id)` on an un-awaited Promise is never true, so the existence check never fires | DELETE /teams/Nope on an empty store answers 200 with null | 404 "This team does not exist" | high (not executed) | `Scenarios.DeleteNopeAsWritten` | `Controller.TeamsController.DeleteAwaited` |
| src/teams/teams.service.ts:54 | `update` selects by `_id`, while the PUT route hands it the path parameter that GET and DELETE treat as a name | the service call `update("Ferrari", …)` against a stored Ferrari with `_id` "t1" resolves null and changes nothing (shown on the service alone: the as-written PUT is refused earlier by the line 178 check, and Mongoose's ObjectId cast of "Ferrari" is not modelled) | select the Team by name, as findOne and delete do | medium (not executed) | `Scenarios.UpdateSelectsById` | `TeamStore.TeamsService.UpdateByName` |

Two other behaviours are proved but not counted as findings, because the intent
behind them is unclear:

- A `championshipsWon` of 0 is reported as "Missing parameters"
  (`Guards.ZeroChampionshipsIsMissing`).
- A PUT that keeps the Team's name is refused as a duplicate of itself
  (`Scenarios.PutUnchangedNameAwaited`).
