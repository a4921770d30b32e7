/** The measure-name service: its reads and its expansion hook, which lists the
    measures of the name. */
module MeasureNames {
  import opened Common
  import opened Storage
  import opened Expansion
  import Mixin

  /** `get_measure_name`: the mixin's read with the caller's depth and source. */
  function GetMeasureName(st: Store, ext: Outside, key: Value, depth: int, source: Collection): (r: Lookup<Record>)
    ensures r.NotFound? <==> GetDocument(st, MeasureName, key).NotFound?
    ensures r.NotFound? ==> r.key == key
    ensures r.Found? ==>
      r.value == ExpandMeasureName(st, ext, GetDocument(st, MeasureName, key).value, depth, source) && Field(r.value, ID) == key
  {
    Mixin.GetSingleDictResult(st, ext, MeasureName, key, depth, source);
    GetSingleDict(st, ext, MeasureName, key, depth, source)
  }

  /** `get_measure_names`: an unfiltered read at depth 0, which is every stored
      measure name as stored, in storage order. */
  function GetMeasureNames(st: Store, ext: Outside): (out: seq<Record>)
    ensures out == Docs(st, MeasureName)
  {
    Mixin.GetMultipleInStorageOrder(st, ext, MeasureName, [], Everything, 0, NoSource);
    SelectAll(Docs(st, MeasureName));
    Expansion.GetMultiple(st, ext, MeasureName, [], Everything, 0, NoSource)
  }

  /** The hook does nothing once the depth is used up. */
  lemma MeasureNameHookAtDepthZero(st: Store, ext: Outside, n: Record, depth: int, source: Collection)
    requires depth <= 0
    ensures ExpandMeasureName(st, ext, n, depth, source) == n
  {
  }

  /** The hook does nothing for a read coming from a measure. */
  lemma MeasureNameHookFromMeasure(st: Store, ext: Outside, n: Record, depth: int)
    ensures ExpandMeasureName(st, ext, n, depth, Measure) == n
  {
  }

  /** Otherwise `measures` is the measure read filtered on `measure_name_id` equal to
      the name's id, at `depth - 1` tagged as coming from measure names: one entry
      per stored measure of that name, with its id, in storage order. */
  lemma MeasureNameHookMeasures(st: Store, ext: Outside, n: Record, depth: int, source: Collection)
    requires depth > 0 && source != Measure
    ensures var q := [KeyIs(MEASURE_NAME_ID, Field(n, ID))];
      var named := Select(Docs(st, Measure), q);
      var out := ExpandMeasureName(st, ext, n, depth, source);
      out == n["measures" := List(Objs(Expansion.GetMultiple(st, ext, Measure, q, Everything, depth - 1, MeasureName)))]
      && |Items(out["measures"])| == |named|
      && forall j :: 0 <= j < |named| ==> Field(AsRecord(Items(out["measures"])[j]), ID) == Field(named[j], ID)
  {
    var q := [KeyIs(MEASURE_NAME_ID, Field(n, ID))];
    Mixin.GetMultipleInStorageOrder(st, ext, Measure, q, Everything, depth - 1, MeasureName);
  }
}
