/** The measure service: create with a measure-name check, the two updates, and
    the expansion hook (time series and measure name). */
module Measures {
  import opened Common
  import opened Storage
  import opened Expansion
  import opened Edits
  import Mixin

  /** The related-measure-name check: no measure name id given, or one that exists. */
  predicate NameGiven(st: Store, m: Record) {
    Field(m, MEASURE_NAME_ID) == Null || GetDocument(st, MeasureName, Field(m, MEASURE_NAME_ID)).Found?
  }

  /** `save_measure`: a given measure name id that names no measure name is an error
      and nothing is created; otherwise the mixin's `create`. */
  method Save(db: Gateway, ext: Outside, m: Record) returns (out: Reply<Record>)
    requires db.Valid()
    modifies db
    ensures db.Valid()
    ensures !NameGiven(old(db.docs), m) ==> out == Invalid(MeasureNameMissing) && db.docs == old(db.docs) && db.nextId == old(db.nextId)
    ensures NameGiven(old(db.docs), m) ==>
      var stored := Mixin.Normalized(m)[ID := Ref(old(db.nextId))];
      out == Done(stored) && db.nextId == old(db.nextId) + 1
      && db.docs == old(db.docs)[Measure := Docs(old(db.docs), Measure) + [stored]]
  {
    var nameId := Field(m, MEASURE_NAME_ID);
    var name := GetSingleDict(db.docs, ext, MeasureName, nameId, 0, NoSource);
    Mixin.GetSingleDictResult(db.docs, ext, MeasureName, nameId, 0, NoSource);
    if nameId != Null && name.NotFound? {
      return Invalid(MeasureNameMissing);
    }
    var created := Mixin.Create(db, ext, Measure, m);
    out := Done(created.value);
  }

  /** `update_measure`: the payload's fields are copied onto the measure read at
      depth 0, the result is written back and returned as it is (not re-read). A
      missing measure makes the copy fail, and nothing is written. */
  method Update(db: Gateway, ext: Outside, key: Value, patch: Record) returns (out: Reply<Record>)
    requires db.Valid()
    modifies db
    ensures db.Valid() && db.nextId == old(db.nextId)
    ensures GetDocument(old(db.docs), Measure, key).NotFound? ==> out == Invalid(Raised) && db.docs == old(db.docs)
    ensures GetDocument(old(db.docs), Measure, key).Found? ==>
      var updated := Patched(GetDocument(old(db.docs), Measure, key).value, patch);
      out == Done(updated) && db.docs == Replaced(old(db.docs), Measure, key, updated)
  {
    var existing := GetSingleDict(db.docs, ext, Measure, key, 0, NoSource);
    Mixin.GetSingleDictResult(db.docs, ext, Measure, key, 0, NoSource);
    if existing.NotFound? {
      return Invalid(Raised);
    }
    Mixin.ExpandAtDepthZero(db.docs, ext, Measure, GetDocument(db.docs, Measure, key).value, 0, NoSource);
    var updated := ApplyPatch(existing.value, patch);
    db.UpdateDocument(Measure, key, updated);
    out := Done(updated);
  }

  /** `update_measure_relationships`: a missing measure gives the not-found marker,
      then a given measure name id that names nothing is an error, and after either
      nothing is written. Otherwise the stored measure with only its
      `measure_name_id` replaced is written back, and the re-read measure returned. */
  method UpdateRelationships(db: Gateway, ext: Outside, key: Value, relations: Record) returns (out: Reply<Record>)
    requires db.Valid()
    modifies db
    ensures db.Valid() && db.nextId == old(db.nextId)
    ensures GetDocument(old(db.docs), Measure, key).NotFound? ==> out == Missing(key) && db.docs == old(db.docs)
    ensures (GetDocument(old(db.docs), Measure, key).Found? && !NameGiven(old(db.docs), relations)) ==>
      out == Invalid(MeasureNameMissing) && db.docs == old(db.docs)
    ensures (GetDocument(old(db.docs), Measure, key).Found? && NameGiven(old(db.docs), relations)) ==>
      var updated := GetDocument(old(db.docs), Measure, key).value[MEASURE_NAME_ID := Field(relations, MEASURE_NAME_ID)];
      db.docs == Replaced(old(db.docs), Measure, key, updated) && out == Done(updated)
  {
    var existing := GetSingleDict(db.docs, ext, Measure, key, 0, NoSource);
    Mixin.GetSingleDictResult(db.docs, ext, Measure, key, 0, NoSource);
    if existing.NotFound? {
      return Missing(key);
    }
    var nameId := Field(relations, MEASURE_NAME_ID);
    var name := GetSingleDict(db.docs, ext, MeasureName, nameId, 0, NoSource);
    Mixin.GetSingleDictResult(db.docs, ext, MeasureName, nameId, 0, NoSource);
    if nameId != Null && name.NotFound? {
      return Invalid(MeasureNameMissing);
    }
    var stored := GetDocument(db.docs, Measure, key).value;
    Mixin.ExpandAtDepthZero(db.docs, ext, Measure, stored, 0, NoSource);
    var updated := existing.value[MEASURE_NAME_ID := nameId];
    assert IdsBelow(Docs(db.docs, Measure), db.nextId);
    assert ID in updated && updated[ID := key] == updated;
    ReplaceThenFind(Docs(db.docs, Measure), key, updated);
    db.UpdateDocument(Measure, key, updated);
    var reread := GetSingleDict(db.docs, ext, Measure, key, 0, NoSource);
    Mixin.ExpandAtDepthZero(db.docs, ext, Measure, updated[ID := key], 0, NoSource);
    out := Done(reread.value);
  }

  /** The relationship update changes `measure_name_id` and no other field. */
  lemma RelationshipUpdateTouchesOnlyName(existing: Record, nameId: Value, k: string)
    requires k != MEASURE_NAME_ID
    ensures k in existing[MEASURE_NAME_ID := nameId] <==> k in existing
    ensures k in existing ==> existing[MEASURE_NAME_ID := nameId][k] == existing[k]
    ensures Field(existing[MEASURE_NAME_ID := nameId], MEASURE_NAME_ID) == nameId
  {
  }

  /** The hook does nothing once the depth is used up. */
  lemma MeasureHookAtDepthZero(st: Store, ext: Outside, m: Record, depth: int, source: Collection)
    requires depth <= 0
    ensures ExpandMeasure(st, ext, m, depth, source) == m
  {
  }

  /** The time series are the time-series read filtered on `measure_id` equal to the
      measure's id, at `depth - 1` tagged as coming from measures, unless the read
      came from time series; the measure name is read (same depth and tag) only when
      one is set and the read did not come from measure names. Each relation is
      suppressed by its own tag only. */
  lemma MeasureHookRelations(st: Store, ext: Outside, m: Record, depth: int, source: Collection)
    requires depth > 0
    ensures var out := ExpandMeasure(st, ext, m, depth, source);
      var nameId := Field(m, MEASURE_NAME_ID);
      (if source != TimeSeries
       then out["time_series"] == List(Objs(ext(Request(TimeSeries, [KeyIs("measure_id", Field(m, ID))], depth - 1, Measure))))
       else Field(out, "time_series") == Field(m, "time_series"))
      && (if source != MeasureName && nameId != Null
          then out["measure_name"] == AsValue(GetSingleDict(st, ext, MeasureName, nameId, depth - 1, Measure))
          else Field(out, "measure_name") == Field(m, "measure_name"))
  {
  }

  /** The measure name attached is the stored one, expanded, or the not-found marker
      carrying the id. */
  lemma MeasureHookName(st: Store, ext: Outside, m: Record, depth: int, source: Collection)
    requires depth > 0 && source != MeasureName && Field(m, MEASURE_NAME_ID) != Null
    ensures var out := ExpandMeasure(st, ext, m, depth, source);
      var nameId := Field(m, MEASURE_NAME_ID);
      match GetDocument(st, MeasureName, nameId)
      case NotFound(_) => out["measure_name"] == Absent(nameId)
      case Found(n) => out["measure_name"] == Obj(ExpandMeasureName(st, ext, n, depth - 1, Measure))
  {
    Mixin.GetSingleDictResult(st, ext, MeasureName, Field(m, MEASURE_NAME_ID), depth - 1, Measure);
  }
}
