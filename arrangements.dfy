/** The arrangement service: its reads and its expansion hook, which lists the
    activity executions of the arrangement. */
module Arrangements {
  import opened Common
  import opened Storage
  import opened Expansion
  import Mixin
  import ActivityExecutions

  /** `get_arrangement`: the mixin's read with the caller's depth and source. */
  function GetArrangement(st: Store, ext: Outside, key: Value, depth: int, source: Collection): (r: Lookup<Record>)
    ensures r.NotFound? <==> GetDocument(st, Arrangement, key).NotFound?
    ensures r.NotFound? ==> r.key == key
    ensures r.Found? ==>
      r.value == ExpandArrangement(st, ext, GetDocument(st, Arrangement, key).value, depth, source) && Field(r.value, ID) == key
  {
    Mixin.GetSingleDictResult(st, ext, Arrangement, key, depth, source);
    GetSingleDict(st, ext, Arrangement, key, depth, source)
  }

  /** `get_arrangements`: an unfiltered read at depth 0, which is every stored
      arrangement as stored, in storage order. */
  function GetArrangements(st: Store, ext: Outside): (out: seq<Record>)
    ensures out == Docs(st, Arrangement)
  {
    Mixin.GetMultipleInStorageOrder(st, ext, Arrangement, [], Everything, 0, NoSource);
    SelectAll(Docs(st, Arrangement));
    Expansion.GetMultiple(st, ext, Arrangement, [], Everything, 0, NoSource)
  }

  /** The hook does nothing once the depth is used up. */
  lemma ArrangementHookAtDepthZero(st: Store, ext: Outside, a: Record, depth: int, source: Collection)
    requires depth <= 0
    ensures ExpandArrangement(st, ext, a, depth, source) == a
  {
  }

  /** The hook does nothing for a read coming from an activity execution. */
  lemma ArrangementHookFromExecution(st: Store, ext: Outside, a: Record, depth: int)
    ensures ExpandArrangement(st, ext, a, depth, ActivityExecution) == a
  {
  }

  /** Otherwise `activity_executions` is the activity-execution read filtered on
      `arrangement_id` equal to the arrangement's id, at `depth - 1` tagged as
      coming from arrangements: one entry per execution embedded in the activities
      holding such an execution, each with its own id, in storage order. */
  lemma ArrangementHookExecutions(st: Store, ext: Outside, a: Record, depth: int, source: Collection)
    requires depth > 0 && source != ActivityExecution
    ensures var q := [KeyIs(ARRANGEMENT_ID, Field(a, ID))];
      var held := ActivityExecutions.EmbeddedExecutions(GetDocuments(st, Activity, Rewrite(q, ACTIVITY_EXECUTIONS), ActivityProjection(q)));
      var out := ExpandArrangement(st, ext, a, depth, source);
      out == a[ACTIVITY_EXECUTIONS := List(Objs(GetMultipleExecutions(st, ext, q, depth - 1, Arrangement)))]
      && |Items(out[ACTIVITY_EXECUTIONS])| == |held|
      && forall j :: 0 <= j < |held| ==>
           Field(AsRecord(Items(out[ACTIVITY_EXECUTIONS])[j]), ID) == Field(AsRecord(held[j]), ID)
  {
    var q := [KeyIs(ARRANGEMENT_ID, Field(a, ID))];
    ActivityExecutions.ExecutionsInArrayOrder(st, ext, GetDocuments(st, Activity, Rewrite(q, ACTIVITY_EXECUTIONS), ActivityProjection(q)), depth - 1, Arrangement);
  }
}
