/**
 * The validation chains of `TeamsController` (src/teams/teams.controller.ts):
 * straight-line early-exit checks over the request, where the first check that
 * fails decides the HTTP error.
 */
module Guards {

  /** The JavaScript values a request field can hold; `Absent` stands for undefined and null. */
  datatype JsValue = Absent | Str(s: string) | Num(n: int) | Bool(b: bool) | Obj

  /** JavaScript truthiness: undefined, null, "", 0 and false are falsy; objects are truthy. */
  predicate Truthy(v: JsValue)
    ensures Truthy(v) <==> v !in {Absent, Str(""), Num(0), Bool(false)}
  {
    match v
    case Absent => false
    case Str(s) => s != ""
    case Num(n) => n != 0
    case Bool(b) => b
    case Obj => true
  }

  /**
   * What an un-awaited `teamsService.findOne(...)` evaluates to: a pending
   * Promise, which is an object.
   */
  const PendingLookup: JsValue := Obj

  /** The request body of POST and PUT. */
  datatype Body = Body(name: JsValue, base: JsValue, championshipsWon: JsValue)

  /** Every error the controller throws, one per distinct status and message. */
  datatype Reason =
    | MissingParameters
    | WrongTypeOfParameters
    | NegativeChampionships
    | NameLength
    | BaseLength
    | NameEqualsBase
    | AlreadyExists
    | MissingParameter
    | WrongTypeOfParameter
    | DoesNotExist
    | TeamNotFound
    | AlreadyExistsOnSave
    | InternalServerError

  /** The HTTP status each error is thrown with. */
  function Status(r: Reason): (code: int)
    ensures code in {400, 404, 500}
    ensures code == 404 <==> r in {DoesNotExist, TeamNotFound}
    ensures code == 500 <==> r in {AlreadyExistsOnSave, InternalServerError}
  {
    match r
    case DoesNotExist | TeamNotFound => 404
    case AlreadyExistsOnSave | InternalServerError => 500
    case _ => 400
  }

  /**
   * The `error` text each error carries. A duplicate refused by the check and a
   * failed save share one text and differ only in status; the key and the body
   * name share the length text.
   */
  function Message(r: Reason): (m: string)
    ensures m == "This team already exists" <==> r in {AlreadyExists, AlreadyExistsOnSave}
    ensures m == "Name must be between 3 and 20 characters" <==> r == NameLength
  {
    match r
    case MissingParameters => "Missing parameters"
    case WrongTypeOfParameters => "Wrong type of parameters"
    case NegativeChampionships => "Championships won must be a positive number"
    case NameLength => "Name must be between 3 and 20 characters"
    case BaseLength => "Base must be between 3 and 20 characters"
    case NameEqualsBase => "Name and base must be different"
    case AlreadyExists => "This team already exists"
    case MissingParameter => "Missing parameter"
    case WrongTypeOfParameter => "Wrong type of parameter"
    case DoesNotExist => "This team does not exist"
    case TeamNotFound => "Team not found"
    case AlreadyExistsOnSave => "This team already exists"
    case InternalServerError => "Internal server error"
  }

  /** The verdict of a guard chain. */
  datatype Check = Pass | Reject(reason: Reason)

  predicate AllPresent(b: Body)
  {
    Truthy(b.name) && Truthy(b.base) && Truthy(b.championshipsWon)
  }

  predicate WellTyped(b: Body)
  {
    b.name.Str? && b.base.Str? && b.championshipsWon.Num?
  }

  /**
   * JavaScript's `.length`: UTF-16 code units, so a character outside the Basic
   * Multilingual Plane (a surrogate pair) counts twice.
   */
  function JsLength(s: string): (n: nat)
    ensures |s| <= n <= 2 * |s|
  {
    if s == [] then 0
    else (if s[0] as int >= 0x10000 then 2 else 1) + JsLength(s[1..])
  }

  /** A string of Basic Multilingual Plane characters has one code unit per character. */
  lemma {:induction false} JsLengthBmp(s: string)
    requires forall i :: 0 <= i < |s| ==> s[i] as int < 0x10000
    ensures JsLength(s) == |s|
  {
    if s != [] {
      JsLengthBmp(s[1..]);
    }
  }

  /** A string of characters beyond the Basic Multilingual Plane has two code units per character. */
  lemma {:induction false} JsLengthAstral(s: string)
    requires forall i :: 0 <= i < |s| ==> s[i] as int >= 0x10000
    ensures JsLength(s) == 2 * |s|
  {
    if s != [] {
      JsLengthAstral(s[1..]);
    }
  }

  /** `3 <= s.length <= 20`, with `.length` as JavaScript counts it. */
  predicate InLength(s: string)
  {
    3 <= JsLength(s) <= 20
  }

  /** The Team record invariant: both strings 3 to 20 long and different, a non-negative count. */
  predicate ValidTeam(name: string, base: string, championshipsWon: int)
  {
    InLength(name) && InLength(base) && name != base && championshipsWon >= 0
  }

  /** The bodies the field checks let through: valid Teams, except a count of 0. */
  predicate Acceptable(b: Body)
  {
    WellTyped(b) && ValidTeam(b.name.s, b.base.s, b.championshipsWon.n) && b.championshipsWon.n != 0
  }

  /** The checks on the body fields, in source order (presence, type, count, lengths, difference). */
  function FieldGuards(b: Body): (r: Check)
    ensures r.Pass? <==> Acceptable(b)
    ensures r.Reject? ==> r.reason in {MissingParameters, WrongTypeOfParameters, NegativeChampionships,
                                       NameLength, BaseLength, NameEqualsBase}
  {
    if !AllPresent(b) then Reject(MissingParameters)
    else if !WellTyped(b) then Reject(WrongTypeOfParameters)
    else if b.championshipsWon.n < 0 then Reject(NegativeChampionships)
    else if !InLength(b.name.s) then Reject(NameLength)
    else if !InLength(b.base.s) then Reject(BaseLength)
    else if b.name.s == b.base.s then Reject(NameEqualsBase)
    else Pass
  }

  /**
   * The POST chain: the field checks, then the uniqueness check, which rejects
   * whenever the value it tests (`lookup`) is truthy.
   */
  function CreateGuards(b: Body, lookup: JsValue): (r: Check)
    ensures r.Pass? <==> Acceptable(b) && !Truthy(lookup)
    ensures r.Reject? && r.reason != AlreadyExists ==> r == FieldGuards(b)
  {
    if FieldGuards(b).Reject? then FieldGuards(b)
    else if Truthy(lookup) then Reject(AlreadyExists)
    else Pass
  }

  /** The PUT chain: as POST, with the path `id` joining the presence and type checks. */
  function UpdateGuards(id: JsValue, b: Body, lookup: JsValue): (r: Check)
    ensures r.Pass? <==> id.Str? && id.s != "" && Acceptable(b) && !Truthy(lookup)
  {
    if !Truthy(id) || !AllPresent(b) then Reject(MissingParameters)
    else if !id.Str? || !WellTyped(b) then Reject(WrongTypeOfParameters)
    else CreateGuards(b, lookup)
  }

  /** The checks on the path key of GET and DELETE by name. */
  function KeyGuards(id: JsValue): (r: Check)
    ensures r.Pass? <==> id.Str? && InLength(id.s)
    ensures r.Reject? ==> r.reason in {MissingParameter, WrongTypeOfParameter, NameLength}
  {
    if !Truthy(id) then Reject(MissingParameter)
    else if !id.Str? then Reject(WrongTypeOfParameter)
    else if !InLength(id.s) then Reject(NameLength)
    else Pass
  }

  /** The DELETE chain: the key checks, then the existence check on `lookup`. */
  function DeleteGuards(id: JsValue, lookup: JsValue): (r: Check)
    ensures r.Pass? <==> id.Str? && InLength(id.s) && Truthy(lookup)
    ensures r.Reject? && r.reason != DoesNotExist ==> r == KeyGuards(id)
  {
    if KeyGuards(id).Reject? then KeyGuards(id)
    else if !Truthy(lookup) then Reject(DoesNotExist)
    else Pass
  }

  // ---------------------------------------------------------------------------
  // Guard order

  /** Each POST error is returned exactly when its own check fails and every earlier one passes. */
  lemma CreateGuardOrder(b: Body, lookup: JsValue)
    ensures CreateGuards(b, lookup) == Reject(MissingParameters) <==> !AllPresent(b)
    ensures CreateGuards(b, lookup) == Reject(WrongTypeOfParameters) <==> AllPresent(b) && !WellTyped(b)
    ensures CreateGuards(b, lookup) == Reject(NegativeChampionships) <==>
              AllPresent(b) && WellTyped(b) && b.championshipsWon.n < 0
    ensures CreateGuards(b, lookup) == Reject(NameLength) <==>
              AllPresent(b) && WellTyped(b) && b.championshipsWon.n >= 0 && !InLength(b.name.s)
    ensures CreateGuards(b, lookup) == Reject(BaseLength) <==>
              AllPresent(b) && WellTyped(b) && b.championshipsWon.n >= 0 && InLength(b.name.s)
              && !InLength(b.base.s)
    ensures CreateGuards(b, lookup) == Reject(NameEqualsBase) <==>
              AllPresent(b) && WellTyped(b) && b.championshipsWon.n >= 0 && InLength(b.name.s)
              && InLength(b.base.s) && b.name.s == b.base.s
    ensures CreateGuards(b, lookup) == Reject(AlreadyExists) <==> Acceptable(b) && Truthy(lookup)
  {
  }

  /** A count of 0 is falsy, so it is reported as missing, whatever the other fields hold. */
  lemma ZeroChampionshipsIsMissing(b: Body, lookup: JsValue)
    requires b.championshipsWon == Num(0)
    ensures CreateGuards(b, lookup) == Reject(MissingParameters)
    ensures !Acceptable(b)
  {
  }

  /** Name and base equal, but otherwise valid: rejected as equal. */
  lemma NameEqualsBaseRejected(name: string, n: int, lookup: JsValue)
    requires InLength(name) && n > 0
    ensures CreateGuards(Body(Str(name), Str(name), Num(n)), lookup) == Reject(NameEqualsBase)
  {
  }

  /** Once the path `id` is a non-empty string, the PUT chain is the POST chain. */
  lemma UpdateExtendsCreate(id: JsValue, b: Body, lookup: JsValue)
    ensures !Truthy(id) ==> UpdateGuards(id, b, lookup) == Reject(MissingParameters)
    ensures !AllPresent(b) ==> UpdateGuards(id, b, lookup) == Reject(MissingParameters)
    ensures Truthy(id) && !id.Str? && AllPresent(b) ==>
              UpdateGuards(id, b, lookup) == Reject(WrongTypeOfParameters)
    ensures id.Str? && id.s != "" ==> UpdateGuards(id, b, lookup) == CreateGuards(b, lookup)
  {
  }

  /** Each PUT error is returned exactly when its own check fails and every earlier one passes. */
  lemma UpdateGuardOrder(id: JsValue, b: Body, lookup: JsValue)
    ensures UpdateGuards(id, b, lookup) == Reject(MissingParameters) <==> !Truthy(id) || !AllPresent(b)
    ensures UpdateGuards(id, b, lookup) == Reject(WrongTypeOfParameters) <==>
              Truthy(id) && AllPresent(b) && (!id.Str? || !WellTyped(b))
    ensures UpdateGuards(id, b, lookup) == Reject(NegativeChampionships) <==>
              Truthy(id) && id.Str? && AllPresent(b) && WellTyped(b) && b.championshipsWon.n < 0
    ensures UpdateGuards(id, b, lookup) == Reject(NameLength) <==>
              Truthy(id) && id.Str? && AllPresent(b) && WellTyped(b) && b.championshipsWon.n >= 0
              && !InLength(b.name.s)
    ensures UpdateGuards(id, b, lookup) == Reject(BaseLength) <==>
              Truthy(id) && id.Str? && AllPresent(b) && WellTyped(b) && b.championshipsWon.n >= 0
              && InLength(b.name.s) && !InLength(b.base.s)
    ensures UpdateGuards(id, b, lookup) == Reject(NameEqualsBase) <==>
              Truthy(id) && id.Str? && AllPresent(b) && WellTyped(b) && b.championshipsWon.n >= 0
              && InLength(b.name.s) && InLength(b.base.s) && b.name.s == b.base.s
    ensures UpdateGuards(id, b, lookup) == Reject(AlreadyExists) <==>
              Truthy(id) && id.Str? && Acceptable(b) && Truthy(lookup)
  {
  }

  /** The GET and DELETE key errors, each exactly when its check is the first to fail. */
  lemma KeyGuardOrder(id: JsValue)
    ensures KeyGuards(id) == Reject(MissingParameter) <==> !Truthy(id)
    ensures KeyGuards(id) == Reject(WrongTypeOfParameter) <==> Truthy(id) && !id.Str?
    ensures KeyGuards(id) == Reject(NameLength) <==> id.Str? && id.s != "" && !InLength(id.s)
  {
  }

  /**
   * Lengths are UTF-16 lengths: a two-character name whose second character is
   * an emoji has length 3 and passes, while eleven emoji (length 22) do not.
   */
  lemma SurrogatePairsCountTwice()
    ensures JsLength("a\U{1F600}") == 3
    ensures FieldGuards(Body(Str("a\U{1F600}"), Str("Maranello"), Num(1))).Pass?
    ensures JsLength(seq(11, _ => '\U{1F600}')) == 22
    ensures FieldGuards(Body(Str(seq(11, _ => '\U{1F600}')), Str("Maranello"), Num(1))) == Reject(NameLength)
  {
    JsLengthBmp("Maranello");
    JsLengthAstral(seq(11, _ => '\U{1F600}'));
  }

  // ---------------------------------------------------------------------------
  // The un-awaited lookups

  /** An un-awaited lookup is truthy, so POST and PUT reject every body the field checks accept. */
  lemma UnawaitedLookupRejectsValidBodies(id: JsValue, b: Body)
    ensures Truthy(PendingLookup)
    ensures CreateGuards(b, PendingLookup).Reject?
    ensures UpdateGuards(id, b, PendingLookup).Reject?
    ensures Acceptable(b) ==> CreateGuards(b, PendingLookup) == Reject(AlreadyExists)
    ensures id.Str? && id.s != "" && Acceptable(b) ==>
              UpdateGuards(id, b, PendingLookup) == Reject(AlreadyExists)
  {
  }

  /** An un-awaited lookup is truthy, so the DELETE existence check never fires. */
  lemma UnawaitedExistenceCheckNeverFires(id: JsValue)
    ensures DeleteGuards(id, PendingLookup) == KeyGuards(id)
  {
  }
}
