/** The storage gateway: named collections of documents in storage order, read by
    id or by query (with an optional projection) and written by create, replace
    and delete. Only the narrow interface the services use is modelled. */
module Storage {
  import opened Common

  /** One dataset: every collection's documents in storage order. */
  type Store = map<Collection, seq<Record>>

  function Docs(st: Store, c: Collection): seq<Record> {
    if c in st then st[c] else []
  }

  /** How a projection treats the embedded array: keep it whole, or keep only the
      elements matching a query (the field is left out when none matches). */
  datatype ArrayView = Whole | MatchingOnly(q: Query)

  /** A read projection: everything, or the id, the listed fields and one embedded array. */
  datatype Projection = Everything | Fields(keep: set<string>, embedded: string, view: ArrayView)

  function MatchingElements(vs: seq<Value>, q: Query): (out: seq<Value>)
    ensures |out| <= |vs|
    ensures forall i :: 0 <= i < |out| ==> out[i] in vs && Matches(AsRecord(out[i]), q)
  {
    if vs == [] then []
    else if Matches(AsRecord(vs[0]), q) then [vs[0]] + MatchingElements(vs[1..], q)
    else MatchingElements(vs[1..], q)
  }

  function Project(p: Projection, r: Record): (out: Record)
  {
    match p
    case Everything => r
    case Fields(keep, a, view) =>
      var kept := map k | k in r && k != a && (k == ID || k in keep) :: r[k];
      if a !in r then kept
      else match view
        case Whole => kept[a := r[a]]
        case MatchingOnly(q) =>
          var hits := MatchingElements(Items(r[a]), q);
          if hits == [] then kept else kept[a := List(hits)]
  }

  /** A projection always keeps the id (unless the embedded array is itself named "id"). */
  lemma ProjectKeepsId(p: Projection, r: Record)
    requires p.Fields? ==> p.embedded != ID
    ensures Field(Project(p, r), ID) == Field(r, ID)
  {
  }

  /** A projection keeps no field besides the id, the listed fields and the embedded array. */
  lemma ProjectKeys(p: Projection, r: Record)
    requires p.Fields?
    ensures forall k :: k in Project(p, r) ==> k == ID || k in p.keep || k == p.embedded
  {
  }

  function ProjectAll(p: Projection, rs: seq<Record>): (out: seq<Record>)
    ensures |out| == |rs|
    ensures forall i :: 0 <= i < |rs| ==> out[i] == Project(p, rs[i])
  {
    seq(|rs|, i requires 0 <= i < |rs| => Project(p, rs[i]))
  }

  /** `get_documents`: the documents of `c` matching `q`, in storage order, projected. */
  function GetDocuments(st: Store, c: Collection, q: Query, p: Projection): seq<Record> {
    ProjectAll(p, Select(Docs(st, c), q))
  }

  /** The first document of `rs` whose id is `key`. */
  function FindById(rs: seq<Record>, key: Value): (out: Lookup<Record>)
    ensures out.Found? ==> out.value in rs && Field(out.value, ID) == key
    ensures out.NotFound? ==> out.key == key && forall i :: 0 <= i < |rs| ==> Field(rs[i], ID) != key
  {
    if rs == [] then NotFound(key)
    else if Field(rs[0], ID) == key then Found(rs[0])
    else FindById(rs[1..], key)
  }

  /** `get_document`: the document of `c` with id `key`, or the not-found marker. */
  function GetDocument(st: Store, c: Collection, key: Value): Lookup<Record> {
    FindById(Docs(st, c), key)
  }

  /** `rs` with the first document whose id is `key` replaced by `r` (keeping the id). */
  function ReplaceFirst(rs: seq<Record>, key: Value, r: Record): (out: seq<Record>)
    ensures |out| == |rs|
  {
    if rs == [] then []
    else if Field(rs[0], ID) == key then [r[ID := key]] + rs[1..]
    else [rs[0]] + ReplaceFirst(rs[1..], key, r)
  }

  /** `rs` without the first document whose id is `key`. */
  function RemoveFirst(rs: seq<Record>, key: Value): (out: seq<Record>)
    ensures |out| <= |rs|
  {
    if rs == [] then []
    else if Field(rs[0], ID) == key then rs[1..]
    else [rs[0]] + RemoveFirst(rs[1..], key)
  }

  function Replaced(st: Store, c: Collection, key: Value, r: Record): Store {
    if c in st then st[c := ReplaceFirst(st[c], key, r)] else st
  }

  function Removed(st: Store, c: Collection, key: Value): Store {
    if c in st then st[c := RemoveFirst(st[c], key)] else st
  }

  /** A write to one collection leaves every other collection as it was. */
  lemma ReplacedElsewhere(st: Store, c: Collection, key: Value, r: Record, other: Collection)
    requires other != c
    ensures Docs(Replaced(st, c, key, r), other) == Docs(st, other)
  {
  }

  /** Two replaces of the same present document leave only the second. */
  lemma {:induction false} ReplaceFirstTwice(rs: seq<Record>, key: Value, r1: Record, r2: Record)
    requires FindById(rs, key).Found?
    ensures ReplaceFirst(ReplaceFirst(rs, key, r1), key, r2) == ReplaceFirst(rs, key, r2)
  {
    if Field(rs[0], ID) == key {
      assert Field(r1[ID := key], ID) == key;
    } else {
      ReplaceFirstTwice(rs[1..], key, r1, r2);
    }
  }

  /** In a collection without duplicate ids, a replace overwrites the one slot
      holding the id. */
  lemma {:induction false} ReplaceFirstAt(rs: seq<Record>, i: nat, r: Record)
    requires UniqueIds(rs) && i < |rs|
    ensures ReplaceFirst(rs, Field(rs[i], ID), r) == rs[i := r[ID := Field(rs[i], ID)]]
  {
    if i > 0 {
      assert Field(rs[0], ID) != Field(rs[i], ID);
      assert UniqueIds(rs[1..]);
      ReplaceFirstAt(rs[1..], i - 1, r);
      assert rs[1..][i - 1] == rs[i];
      assert rs[i := r[ID := Field(rs[i], ID)]] == [rs[0]] + rs[1..][i - 1 := r[ID := Field(rs[i], ID)]];
    }
  }

  /** A replace sets the id itself, so the id the new document carries does not matter. */
  lemma {:induction false} ReplaceFirstSetsId(rs: seq<Record>, key: Value, r: Record)
    ensures ReplaceFirst(rs, key, r[ID := key]) == ReplaceFirst(rs, key, r)
  {
    assert r[ID := key][ID := key] == r[ID := key];
    if rs != [] && Field(rs[0], ID) != key {
      ReplaceFirstSetsId(rs[1..], key, r);
    }
  }

  /** Every document carries an id below `n`. */
  ghost predicate IdsBelow(rs: seq<Record>, n: Id) {
    forall i :: 0 <= i < |rs| ==> Field(rs[i], ID).Ref? && Field(rs[i], ID).id < n
  }

  /** No two documents share an id. */
  ghost predicate UniqueIds(rs: seq<Record>) {
    forall i, j :: 0 <= i < j < |rs| ==> Field(rs[i], ID) != Field(rs[j], ID)
  }

  /** The invariant the gateway keeps for each collection. */
  ghost predicate Keyed(rs: seq<Record>, n: Id) {
    IdsBelow(rs, n) && UniqueIds(rs)
  }

  /** A replace leaves every id where it was. */
  lemma {:induction false} ReplaceFirstKeepsIds(rs: seq<Record>, key: Value, r: Record)
    ensures forall i :: 0 <= i < |rs| ==> Field(ReplaceFirst(rs, key, r)[i], ID) == Field(rs[i], ID)
  {
    if rs != [] && Field(rs[0], ID) != key {
      ReplaceFirstKeepsIds(rs[1..], key, r);
      var out := ReplaceFirst(rs, key, r);
      forall i | 0 < i < |rs| ensures Field(out[i], ID) == Field(rs[i], ID) {
        assert out[i] == ReplaceFirst(rs[1..], key, r)[i - 1];
      }
    }
  }

  lemma ReplaceFirstKeyed(rs: seq<Record>, key: Value, r: Record, n: Id)
    requires Keyed(rs, n)
    ensures Keyed(ReplaceFirst(rs, key, r), n)
  {
    ReplaceFirstKeepsIds(rs, key, r);
  }

  /** A remove takes out one document and keeps the rest, in order. */
  lemma {:induction false} RemoveFirstKeyed(rs: seq<Record>, key: Value, n: Id)
    requires Keyed(rs, n)
    ensures Keyed(RemoveFirst(rs, key), n)
  {
    var out := RemoveFirst(rs, key);
    RemoveFirstWithin(rs, key);
    forall i | 0 <= i < |out| ensures Field(out[i], ID).Ref? && Field(out[i], ID).id < n {
      assert out[i] in rs;
      var j :| 0 <= j < |rs| && rs[j] == out[i];
    }
    if rs != [] && Field(rs[0], ID) != key {
      var rest := rs[1..];
      assert Keyed(rest, n);
      RemoveFirstKeyed(rest, key, n);
      RemoveFirstWithin(rest, key);
      var tail := RemoveFirst(rest, key);
      assert out == [rs[0]] + tail;
      forall i | 0 <= i < |tail| ensures Field(tail[i], ID) != Field(rs[0], ID) {
        assert tail[i] in rest;
        var j :| 0 <= j < |rest| && rest[j] == tail[i];
        assert rs[j + 1] == tail[i];
      }
      forall i, j | 0 <= i < j < |out| ensures Field(out[i], ID) != Field(out[j], ID) {
        if i > 0 {
          assert out[i] == tail[i - 1] && out[j] == tail[j - 1];
        }
      }
    }
  }

  /** Removing keeps only documents that were there. */
  lemma {:induction false} RemoveFirstWithin(rs: seq<Record>, key: Value)
    ensures forall r :: r in RemoveFirst(rs, key) ==> r in rs
  {
    if rs != [] && Field(rs[0], ID) != key {
      RemoveFirstWithin(rs[1..], key);
      assert RemoveFirst(rs, key) == [rs[0]] + RemoveFirst(rs[1..], key);
    }
  }


  /** In a collection without duplicate ids, a stored document is what a read of its id returns. */
  lemma {:induction false} FindUnique(rs: seq<Record>, i: nat)
    requires UniqueIds(rs) && i < |rs|
    ensures FindById(rs, Field(rs[i], ID)) == Found(rs[i])
  {
    if i > 0 {
      assert Field(rs[0], ID) != Field(rs[i], ID);
      assert UniqueIds(rs[1..]);
      FindUnique(rs[1..], i - 1);
    }
  }

  /** Replacing a document that is not there changes nothing. */
  lemma {:induction false} ReplaceAbsent(rs: seq<Record>, key: Value, r: Record)
    requires FindById(rs, key).NotFound?
    ensures ReplaceFirst(rs, key, r) == rs
  {
    if rs != [] {
      ReplaceAbsent(rs[1..], key, r);
    }
  }

  /** Deleting a document that is not there changes nothing. */
  lemma {:induction false} RemoveAbsent(rs: seq<Record>, key: Value)
    requires FindById(rs, key).NotFound?
    ensures RemoveFirst(rs, key) == rs
  {
    if rs != [] {
      RemoveAbsent(rs[1..], key);
    }
  }

  /** After a replace, reading the id back yields the new document with that id. */
  lemma {:induction false} ReplaceThenFind(rs: seq<Record>, key: Value, r: Record)
    requires FindById(rs, key).Found?
    ensures FindById(ReplaceFirst(rs, key, r), key) == Found(r[ID := key])
  {
    if Field(rs[0], ID) != key {
      ReplaceThenFind(rs[1..], key, r);
    }
  }

  /** A document appended under a fresh id is what a read of that id returns. */
  lemma {:induction false} FindFresh(rs: seq<Record>, n: Id, r: Record)
    requires IdsBelow(rs, n)
    ensures FindById(rs + [r[ID := Ref(n)]], Ref(n)) == Found(r[ID := Ref(n)])
  {
    if rs == [] {
      assert Field(r[ID := Ref(n)], ID) == Ref(n);
    } else {
      assert (rs + [r[ID := Ref(n)]])[1..] == rs[1..] + [r[ID := Ref(n)]];
      FindFresh(rs[1..], n, r);
    }
  }

  /** The document store of one dataset, with the counter that hands out fresh ids. */
  class Gateway {
    var docs: Store
    var nextId: Id

    ghost predicate Valid()
      reads this
    {
      forall c | c in docs :: Keyed(docs[c], nextId)
    }

    constructor ()
      ensures Valid() && docs == map[] && nextId == 0
    {
      docs := map[];
      nextId := 0;
    }

    /** A fresh identifier, as `ObjectId()` makes one. */
    method NewId() returns (id: Id)
      requires Valid()
      modifies this
      ensures Valid() && docs == old(docs)
      ensures id == old(nextId) && nextId == id + 1
    {
      id := nextId;
      nextId := nextId + 1;
      forall c | c in docs ensures Keyed(docs[c], nextId) {
        assert Keyed(docs[c], id);
      }
    }

    /** `create_document`: stores `r` under a fresh id, at the end of its collection. */
    method CreateDocument(c: Collection, r: Record) returns (id: Id)
      requires Valid()
      modifies this
      ensures Valid()
      ensures id == old(nextId) && nextId == id + 1
      ensures docs == old(docs)[c := Docs(old(docs), c) + [r[ID := Ref(id)]]]
    {
      id := NewId();
      var stored := r[ID := Ref(id)];
      var rs := Docs(docs, c);
      assert Keyed(rs, id);
      var grown := rs + [stored];
      assert Field(stored, ID) == Ref(id);
      assert forall i :: 0 <= i < |rs| ==> grown[i] == rs[i];
      assert Keyed(grown, nextId);
      docs := docs[c := grown];
    }

    /** `update_document`: replaces the document with id `key`; nothing happens when there is none. */
    method UpdateDocument(c: Collection, key: Value, r: Record)
      requires Valid()
      modifies this
      ensures Valid() && nextId == old(nextId)
      ensures docs == Replaced(old(docs), c, key, r)
    {
      if c in docs {
        ReplaceFirstKeyed(docs[c], key, r, nextId);
      }
      docs := Replaced(docs, c, key, r);
    }

    /** `delete_document`: removes the document with id `key`; nothing happens when there is none. */
    method DeleteDocument(c: Collection, key: Value)
      requires Valid()
      modifies this
      ensures Valid() && nextId == old(nextId)
      ensures docs == Removed(old(docs), c, key)
    {
      if c in docs {
        RemoveFirstKeyed(docs[c], key, nextId);
      }
      docs := Removed(docs, c, key);
    }
  }
}
