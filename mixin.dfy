/** The generic entity service every mixin-based service inherits: create, read
    one, read many, update and delete of the documents of one collection, with
    the collection's expansion hook applied to what is read. */
module Mixin {
  import opened Common
  import opened Storage
  import opened Expansion

  const SECONDS_PER_DAY := 86400

  /** A date without a time of day becomes the moment at midnight starting that
      day; every other value is left as it is. */
  function AtMidnight(v: Value): (out: Value)
    ensures !out.Day?
    ensures v.Day? ==> out.Moment? && out.seconds % SECONDS_PER_DAY == 0 && out.seconds / SECONDS_PER_DAY == v.day
    ensures !v.Day? ==> out == v
  {
    if v.Day? then Moment(v.day * SECONDS_PER_DAY) else v
  }

  /** A payload with every date-only field moved to midnight. */
  function Normalized(r: Record): (out: Record)
    ensures out.Keys == r.Keys
    ensures forall k :: k in out ==> !out[k].Day?
    ensures forall k :: k in r && !r[k].Day? ==> out[k] == r[k]
  {
    map k | k in r :: AtMidnight(r[k])
  }

  /** Normalising twice is normalising once. */
  lemma NormalizedIdempotent(r: Record)
    ensures Normalized(Normalized(r)) == Normalized(r)
  {
  }

  /** The field loop at the start of `create` and `update`: each date-only field is
      replaced by midnight of its day, one field at a time. */
  method NormalizeDates(r: Record) returns (out: Record)
    ensures out == Normalized(r)
  {
    out := r;
    var todo := r.Keys;
    while todo != {}
      invariant todo <= r.Keys
      invariant out.Keys == r.Keys
      invariant forall k :: k in r ==> out[k] == if k in todo then r[k] else AtMidnight(r[k])
      decreases |todo|
    {
      var k :| k in todo;
      if out[k].Day? {
        out := out[k := AtMidnight(out[k])];
      }
      todo := todo - {k};
    }
  }

  /** The fields an expansion hook may add or overwrite. */
  const RELATIONS: set<string> := {
    ACTIVITY_EXECUTIONS, PARTICIPANT_STATES, "measures", "time_series", "measure_name",
    "personalities", "appearances", "participations", "participant", "arrangement",
    "experiments", "activity", "experiment"
  }

  /** A hook adds related documents and touches no other field of the record. */
  lemma {:induction false} ExpandKeepsOwnFields(st: Store, ext: Outside, c: Collection, r: Record, depth: int, source: Collection, k: string)
    requires k !in RELATIONS
    ensures k in Expand(st, ext, c, r, depth, source) <==> k in r
    ensures k in r ==> Expand(st, ext, c, r, depth, source)[k] == r[k]
  {
    match c
    case Experiment =>
    case Arrangement =>
    case Measure =>
    case MeasureName =>
    case Participant =>
    case Personality =>
    case _ =>
  }

  /** Every hook does nothing once the depth is used up. */
  lemma {:induction false} ExpandAtDepthZero(st: Store, ext: Outside, c: Collection, r: Record, depth: int, source: Collection)
    requires depth <= 0
    ensures Expand(st, ext, c, r, depth, source) == r
  {
    match c
    case Experiment =>
    case Arrangement =>
    case Measure =>
    case MeasureName =>
    case Participant =>
    case Personality =>
    case _ =>
  }

  /** `get_single_dict` and `get_single`: a missing document comes back as the
      not-found marker, unexpanded; a present one is the stored document expanded
      by its hook, still carrying the id asked for. */
  lemma GetSingleDictResult(st: Store, ext: Outside, c: Collection, key: Value, depth: int, source: Collection)
    ensures GetSingleDict(st, ext, c, key, depth, source).NotFound? <==> GetDocument(st, c, key).NotFound?
    ensures GetDocument(st, c, key).NotFound? ==> GetSingleDict(st, ext, c, key, depth, source) == NotFound(key)
    ensures GetDocument(st, c, key).Found? ==>
      GetSingleDict(st, ext, c, key, depth, source) == Found(Expand(st, ext, c, GetDocument(st, c, key).value, depth, source))
      && Field(GetSingleDict(st, ext, c, key, depth, source).value, ID) == key
  {
    if GetDocument(st, c, key).Found? {
      ExpandKeepsOwnFields(st, ext, c, GetDocument(st, c, key).value, depth, source, ID);
    }
  }

  /** `get_multiple`: the hook runs on every fetched document, in storage order,
      with the caller's depth and source. */
  method GetMultiple(db: Gateway, ext: Outside, c: Collection, q: Query, p: Projection, depth: int, source: Collection)
    returns (results: seq<Record>)
    ensures results == Expansion.GetMultiple(db.docs, ext, c, q, p, depth, source)
  {
    var fetched := GetDocuments(db.docs, c, q, p);
    results := [];
    var i := 0;
    while i < |fetched|
      invariant 0 <= i <= |fetched|
      invariant |results| == i
      invariant forall j :: 0 <= j < i ==> results[j] == Expand(db.docs, ext, c, fetched[j], depth, source)
    {
      results := results + [Expand(db.docs, ext, c, fetched[i], depth, source)];
      i := i + 1;
    }
  }

  /** What `get_multiple` returns is one document per matching stored document, in
      storage order, each with its own id; at depth 0 it is exactly the stored
      documents, projected. */
  lemma GetMultipleInStorageOrder(st: Store, ext: Outside, c: Collection, q: Query, p: Projection, depth: int, source: Collection)
    requires p.Fields? ==> p.embedded != ID
    ensures |Expansion.GetMultiple(st, ext, c, q, p, depth, source)| == |Select(Docs(st, c), q)|
    ensures forall i :: 0 <= i < |Select(Docs(st, c), q)| ==>
      Field(Expansion.GetMultiple(st, ext, c, q, p, depth, source)[i], ID) == Field(Select(Docs(st, c), q)[i], ID)
    ensures depth <= 0 ==> Expansion.GetMultiple(st, ext, c, q, p, depth, source) == GetDocuments(st, c, q, p)
  {
    var fetched := GetDocuments(st, c, q, p);
    var out := Expansion.GetMultiple(st, ext, c, q, p, depth, source);
    forall i | 0 <= i < |fetched|
      ensures Field(out[i], ID) == Field(Select(Docs(st, c), q)[i], ID)
      ensures depth <= 0 ==> out[i] == fetched[i]
    {
      ExpandKeepsOwnFields(st, ext, c, fetched[i], depth, source, ID);
      ProjectKeepsId(p, Select(Docs(st, c), q)[i]);
      if depth <= 0 {
        ExpandAtDepthZero(st, ext, c, fetched[i], depth, source);
      }
    }
  }

  /** `create`: stores the date-normalised payload under a fresh id at the end of its
      collection and returns what a plain read of that id gives, which is the
      stored document itself. */
  method Create(db: Gateway, ext: Outside, c: Collection, r: Record) returns (out: Lookup<Record>)
    requires db.Valid()
    modifies db
    ensures db.Valid() && db.nextId == old(db.nextId) + 1
    ensures db.docs == old(db.docs)[c := Docs(old(db.docs), c) + [Normalized(r)[ID := Ref(old(db.nextId))]]]
    ensures out == Found(Normalized(r)[ID := Ref(old(db.nextId))])
  {
    var payload := NormalizeDates(r);
    if c in db.docs {
      assert IdsBelow(db.docs[c], db.nextId);
    }
    FindFresh(Docs(db.docs, c), db.nextId, payload);
    var id := db.CreateDocument(c, payload);
    out := GetSingleDict(db.docs, ext, c, Ref(id), 0, NoSource);
    ExpandAtDepthZero(db.docs, ext, c, payload[ID := Ref(id)], 0, NoSource);
  }

  /** `update`: a missing id returns the not-found marker and writes nothing; a
      present one is replaced by the date-normalised payload (keeping its id) and
      the re-read document is returned. */
  method Update(db: Gateway, ext: Outside, c: Collection, key: Value, r: Record) returns (out: Lookup<Record>)
    requires db.Valid()
    modifies db
    ensures db.Valid() && db.nextId == old(db.nextId)
    ensures GetDocument(old(db.docs), c, key).NotFound? ==> out == NotFound(key) && db.docs == old(db.docs)
    ensures GetDocument(old(db.docs), c, key).Found? ==>
      db.docs == Replaced(old(db.docs), c, key, Normalized(r)) && out == Found(Normalized(r)[ID := key])
  {
    var existing := GetSingleDict(db.docs, ext, c, key, 0, NoSource);
    if existing.NotFound? {
      return existing;
    }
    var payload := NormalizeDates(r);
    ReplaceThenFind(Docs(db.docs, c), key, payload);
    db.UpdateDocument(c, key, payload);
    out := GetSingleDict(db.docs, ext, c, key, 0, NoSource);
    ExpandAtDepthZero(db.docs, ext, c, payload[ID := key], 0, NoSource);
  }

  /** `delete`: reads the document, issues the delete and returns the read result.
      The absence guard of the source never fires, so a missing id also reaches
      the delete, which then removes nothing, and the not-found marker is
      returned. */
  method Delete(db: Gateway, ext: Outside, c: Collection, key: Value) returns (out: Lookup<Record>)
    requires db.Valid()
    modifies db
    ensures db.Valid() && db.nextId == old(db.nextId)
    ensures out == GetDocument(old(db.docs), c, key)
    ensures db.docs == Removed(old(db.docs), c, key)
    ensures out.NotFound? ==> db.docs == old(db.docs)
  {
    out := GetSingleDict(db.docs, ext, c, key, 0, NoSource);
    if out.Found? {
      ExpandAtDepthZero(db.docs, ext, c, GetDocument(db.docs, c, key).value, 0, NoSource);
    } else if c in db.docs {
      RemoveAbsent(db.docs[c], key);
    }
    db.DeleteDocument(c, key);
  }
}
