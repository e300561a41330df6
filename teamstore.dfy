/**
 * The Team collection behind `TeamsService` (src/teams/teams.service.ts), with the
 * record shape and defaults of src/teams/team.schema.ts.
 *
 * The collection is a sequence of documents in natural (insertion) order. Each
 * document carries the collection's own `_id`; nothing makes `name` unique.
 */
module TeamStore {

  datatype Option<T> = None | Some(value: T)

  /** A store call either resolves with a value or throws. */
  datatype Result<T> = Ok(value: T) | Failure

  /** A stored Team document; `id` is the collection's internal `_id`. */
  datatype Team = Team(id: string, name: string, base: string, championshipsWon: int)

  /** The fields handed to the model on insert or update; a field left out is None. */
  datatype Draft = Draft(name: Option<string>, base: Option<string>, championshipsWon: Option<int>)

  /** The document field a query filters on. */
  datatype Key = ByName | ById

  function KeyOf(t: Team, k: Key): string
  {
    match k
    case ByName => t.name
    case ById => t.id
  }

  /** Index of the first document, in natural order, whose key `k` equals `v`. */
  function FirstMatch(docs: seq<Team>, k: Key, v: string): (r: Option<nat>)
    ensures r.Some? ==> r.value < |docs| && KeyOf(docs[r.value], k) == v
    ensures r.Some? ==> forall j :: 0 <= j < r.value ==> KeyOf(docs[j], k) != v
    ensures r.None? <==> forall j :: 0 <= j < |docs| ==> KeyOf(docs[j], k) != v
  {
    if |docs| == 0 then None
    else if KeyOf(docs[0], k) == v then Some(0)
    else match FirstMatch(docs[1..], k, v)
      case None => None
      case Some(i) => Some(i + 1)
  }

  /** What `findOne({ name })` resolves to: the first document with that name, or null. */
  function Lookup(docs: seq<Team>, name: string): (r: Option<Team>)
    ensures r.Some? ==> r.value in docs && r.value.name == name
    ensures r.None? <==> forall t :: t in docs ==> t.name != name
  {
    match FirstMatch(docs, ByName, name)
    case None => None
    case Some(i) => Some(docs[i])
  }

  /** A required string path is satisfied by a present, non-empty string. */
  predicate Supplied(s: Option<string>)
  {
    s.Some? && s.value != ""
  }

  /**
   * The document `new teamModel(draft)` becomes on save: None when a required
   * path (`name`, `base`) fails validation; `championshipsWon` defaults to 0.
   */
  function NewDocument(id: string, d: Draft): (r: Option<Team>)
    ensures r.Some? <==> Supplied(d.name) && Supplied(d.base)
    ensures r.Some? ==> r.value.id == id && r.value.name == d.name.value && r.value.base == d.base.value
    ensures r.Some? && d.championshipsWon.Some? ==> r.value.championshipsWon == d.championshipsWon.value
    ensures r.Some? && d.championshipsWon.None? ==> r.value.championshipsWon == 0
  {
    if Supplied(d.name) && Supplied(d.base) then
      Some(Team(id, d.name.value, d.base.value,
                if d.championshipsWon.Some? then d.championshipsWon.value else 0))
    else None
  }

  /** A document with every field the update supplies overwritten; `id` is kept. */
  function Patched(t: Team, p: Draft): (r: Team)
    ensures r.id == t.id
    ensures p.name.Some? ==> r.name == p.name.value
    ensures p.name.None? ==> r.name == t.name
    ensures p.base.Some? ==> r.base == p.base.value
    ensures p.base.None? ==> r.base == t.base
    ensures p.championshipsWon.Some? ==> r.championshipsWon == p.championshipsWon.value
    ensures p.championshipsWon.None? ==> r.championshipsWon == t.championshipsWon
  {
    Team(t.id,
         if p.name.Some? then p.name.value else t.name,
         if p.base.Some? then p.base.value else t.base,
         if p.championshipsWon.Some? then p.championshipsWon.value else t.championshipsWon)
  }

  /** The collection with the document at `i` removed. */
  function Without(docs: seq<Team>, i: nat): seq<Team>
    requires i < |docs|
  {
    docs[..i] + docs[i + 1..]
  }

  /** Number of documents named `name`. */
  function CountNamed(docs: seq<Team>, name: string): nat
  {
    if |docs| == 0 then 0
    else (if docs[0].name == name then 1 else 0) + CountNamed(docs[1..], name)
  }

  /** No two documents share a name (not enforced by the store itself). */
  predicate UniqueNames(docs: seq<Team>)
  {
    forall i, j :: 0 <= i < j < |docs| ==> docs[i].name != docs[j].name
  }

  class TeamsService {
    /** The Team collection, in natural order. */
    var docs: seq<Team>
    /** Whether the database answers; when it does not, every call throws. */
    var online: bool

    constructor(docs: seq<Team>, online: bool)
      ensures this.docs == docs && this.online == online
    {
      this.docs := docs;
      this.online := online;
    }

    /**
     * `create`: builds a document from the draft with the generated `_id` and
     * saves it. Saving throws when the database is down, a required path is
     * missing, or the `_id` is taken; a second Team with the same name is saved.
     */
    method Create(d: Draft, id: string) returns (r: Result<Team>)
      modifies this`docs
      ensures var doc := NewDocument(id, d);
        if online && doc.Some? && FirstMatch(old(docs), ById, id).None?
        then r == Ok(doc.value) && docs == old(docs) + [doc.value]
        else r == Failure && docs == old(docs)
    {
      var doc := NewDocument(id, d);
      if online && doc.Some? && FirstMatch(docs, ById, id).None? {
        docs := docs + [doc.value];
        r := Ok(doc.value);
      } else {
        r := Failure;
      }
    }

    /** `findAll`: every stored document, in natural order. */
    method FindAll() returns (r: Result<seq<Team>>)
      ensures online ==> r.Ok? && r.value == docs
      ensures !online ==> r == Failure
    {
      if online {
        r := Ok(docs);
      } else {
        r := Failure;
      }
    }

    /** `findOne`: a document with the given name, or null. */
    method FindOne(name: string) returns (r: Result<Option<Team>>)
      ensures !online ==> r == Failure
      ensures online ==> r.Ok?
      ensures r.Ok? && r.value.Some? ==> r.value.value in docs && r.value.value.name == name
      ensures r.Ok? ==> (r.value.None? <==> forall t :: t in docs ==> t.name != name)
      ensures online ==> r == Ok(Lookup(docs, name))
    {
      if online {
        r := Ok(Lookup(docs, name));
      } else {
        r := Failure;
      }
    }

    /**
     * Overwrites the supplied fields of the first document whose key `k` is `v`
     * and resolves with the document as it is after the update, or with null.
     */
    method UpdateFirst(k: Key, v: string, p: Draft) returns (r: Result<Option<Team>>)
      modifies this`docs
      ensures !online ==> r == Failure && docs == old(docs)
      ensures online ==>
        match FirstMatch(old(docs), k, v)
        case None => r == Ok(None) && docs == old(docs)
        case Some(i) => docs == old(docs)[i := Patched(old(docs)[i], p)] && r == Ok(Some(docs[i]))
    {
      if !online {
        return Failure;
      }
      match FirstMatch(docs, k, v)
      case None =>
        r := Ok(None);
      case Some(i) =>
        docs := docs[i := Patched(docs[i], p)];
        r := Ok(Some(docs[i]));
    }

    /** `update`: `findByIdAndUpdate(id, draft, { new: true })`, selecting by `_id`. */
    method Update(id: string, p: Draft) returns (r: Result<Option<Team>>)
      modifies this`docs
      ensures !online ==> r == Failure && docs == old(docs)
      ensures online ==>
        match FirstMatch(old(docs), ById, id)
        case None => r == Ok(None) && docs == old(docs)
        case Some(i) => docs == old(docs)[i := Patched(old(docs)[i], p)] && r == Ok(Some(docs[i]))
    {
      r := UpdateFirst(ById, id, p);
    }

    /** The update the routes mean: select the Team by its name. */
    method UpdateByName(name: string, p: Draft) returns (r: Result<Option<Team>>)
      modifies this`docs
      ensures !online ==> r == Failure && docs == old(docs)
      ensures online ==>
        match FirstMatch(old(docs), ByName, name)
        case None => r == Ok(None) && docs == old(docs)
        case Some(i) => docs == old(docs)[i := Patched(old(docs)[i], p)] && r == Ok(Some(docs[i]))
    {
      r := UpdateFirst(ByName, name, p);
    }

    /** `delete`: `findOneAndDelete({ name })`, resolving with the removed document or null. */
    method Delete(name: string) returns (r: Result<Option<Team>>)
      modifies this`docs
      ensures !online ==> r == Failure && docs == old(docs)
      ensures online ==>
        match FirstMatch(old(docs), ByName, name)
        case None => r == Ok(None) && docs == old(docs)
        case Some(i) => r == Ok(Some(old(docs)[i])) && docs == Without(old(docs), i)
    {
      if !online {
        return Failure;
      }
      match FirstMatch(docs, ByName, name)
      case None =>
        r := Ok(None);
      case Some(i) =>
        r := Ok(Some(docs[i]));
        docs := Without(docs, i);
    }
  }

  // ---------------------------------------------------------------------------
  // Properties of the collection operations

  /** A new document with no `championshipsWon` stores 0. */
  lemma DefaultChampionships(id: string, name: string, base: string)
    requires name != "" && base != ""
    ensures NewDocument(id, Draft(Some(name), Some(base), None)) == Some(Team(id, name, base, 0))
  {
  }

  /** Applying the same update twice gives what applying it once gives. */
  lemma PatchTwice(t: Team, p: Draft)
    ensures Patched(Patched(t, p), p) == Patched(t, p)
  {
  }

  lemma {:induction false} CountNamedAppend(docs: seq<Team>, t: Team, name: string)
    ensures CountNamed(docs + [t], name) == CountNamed(docs, name) + (if t.name == name then 1 else 0)
  {
    if |docs| > 0 {
      assert (docs + [t])[1..] == docs[1..] + [t];
      CountNamedAppend(docs[1..], t, name);
    }
  }

  /** Inserting a Team whose name is already stored leaves two Teams with that name. */
  lemma CreateAllowsDuplicateName(docs: seq<Team>, t: Team)
    requires Lookup(docs, t.name).Some?
    ensures CountNamed(docs + [t], t.name) >= 2
  {
    CountNamedAppend(docs, t, t.name);
    CountNamedPositive(docs, FirstMatch(docs, ByName, t.name).value, t.name);
  }

  lemma {:induction false} CountNamedPositive(docs: seq<Team>, i: nat, name: string)
    requires i < |docs| && docs[i].name == name
    ensures CountNamed(docs, name) >= 1
  {
    if i > 0 {
      CountNamedPositive(docs[1..], i - 1, name);
    }
  }

  /** When exactly one Team has the name, it is the one at `i` and no other. */
  lemma {:induction false} OnlyNamed(docs: seq<Team>, i: nat, name: string)
    requires CountNamed(docs, name) == 1
    requires i < |docs| && docs[i].name == name
    ensures forall j :: 0 <= j < |docs| && j != i ==> docs[j].name != name
  {
    if i == 0 {
      forall j | 0 < j < |docs|
        ensures docs[j].name != name
      {
        if docs[j].name == name {
          CountNamedPositive(docs[1..], j - 1, name);
        }
      }
    } else {
      assert docs[0].name != name by {
        if docs[0].name == name {
          CountNamedPositive(docs[1..], i - 1, name);
        }
      }
      OnlyNamed(docs[1..], i - 1, name);
      forall j | 0 < j < |docs| && j != i
        ensures docs[j].name != name
      {
        assert docs[1..][j - 1] == docs[j];
      }
    }
  }

  /** Removal keeps every other document, in order. */
  lemma WithoutAt(docs: seq<Team>, i: nat)
    requires i < |docs|
    ensures |Without(docs, i)| == |docs| - 1
    ensures forall j :: 0 <= j < i ==> Without(docs, i)[j] == docs[j]
    ensures forall j :: i <= j < |docs| - 1 ==> Without(docs, i)[j] == docs[j + 1]
    ensures multiset(docs) == multiset(Without(docs, i)) + multiset{docs[i]}
  {
    assert docs == docs[..i] + [docs[i]] + docs[i + 1..];
  }

  /** Deleting the only Team named `name` leaves no Team by that name. */
  lemma DeleteThenFind(docs: seq<Team>, i: nat, name: string)
    requires CountNamed(docs, name) == 1
    requires i < |docs| && docs[i].name == name
    ensures Lookup(Without(docs, i), name) == None
  {
    OnlyNamed(docs, i, name);
    WithoutAt(docs, i);
    var rest := Without(docs, i);
    forall t | t in rest
      ensures t.name != name
    {
      var j :| 0 <= j < |rest| && rest[j] == t;
      if j < i {
        assert t == docs[j];
      } else {
        assert t == docs[j + 1];
      }
    }
  }

  lemma {:induction false} CountNamedZero(docs: seq<Team>, name: string)
    requires forall j :: 0 <= j < |docs| ==> docs[j].name != name
    ensures CountNamed(docs, name) == 0
  {
    if |docs| > 0 {
      CountNamedZero(docs[1..], name);
    }
  }

  /** With unique names, a stored name occurs exactly once. */
  lemma {:induction false} UniqueCountsOne(docs: seq<Team>, name: string)
    requires UniqueNames(docs) && Lookup(docs, name).Some?
    ensures CountNamed(docs, name) == 1
  {
    if docs[0].name == name {
      assert forall j :: 0 <= j < |docs[1..]| ==> docs[1..][j].name != name by {
        forall j | 0 <= j < |docs[1..]|
          ensures docs[1..][j].name != name
        {
          assert docs[1..][j] == docs[j + 1];
        }
      }
      CountNamedZero(docs[1..], name);
    } else {
      assert Lookup(docs[1..], name).Some? by {
        var t := Lookup(docs, name).value;
        assert t in docs[1..];
      }
      UniqueCountsOne(docs[1..], name);
    }
  }

  /** Appending a Team under a name not yet stored keeps names unique. */
  lemma AppendKeepsUnique(docs: seq<Team>, t: Team)
    requires UniqueNames(docs) && Lookup(docs, t.name).None?
    ensures UniqueNames(docs + [t])
  {
  }

  /** Overwriting one Team with a name not stored elsewhere keeps names unique. */
  lemma ReplaceKeepsUnique(docs: seq<Team>, i: nat, t: Team)
    requires UniqueNames(docs) && i < |docs|
    requires forall j :: 0 <= j < |docs| && j != i ==> docs[j].name != t.name
    ensures UniqueNames(docs[i := t])
  {
  }

  /** Removing a Team keeps names unique. */
  lemma WithoutKeepsUnique(docs: seq<Team>, i: nat)
    requires UniqueNames(docs) && i < |docs|
    ensures UniqueNames(Without(docs, i))
  {
  }
}
