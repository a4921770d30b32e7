/** The experiment service: its single read and its expansion hook, which lists
    the executions of the scenario starting at the experiment. */
module Experiments {
  import opened Common
  import opened Storage
  import opened Expansion
  import Mixin
  import Scenarios

  /** `get_experiment`: the mixin's read with the caller's depth and source. */
  function GetExperiment(st: Store, ext: Outside, key: Value, depth: int, source: Collection): (r: Lookup<Record>)
    ensures r.NotFound? <==> GetDocument(st, Experiment, key).NotFound?
    ensures r.NotFound? ==> r.key == key
    ensures r.Found? ==>
      r.value == ExpandExperiment(st, ext, GetDocument(st, Experiment, key).value, depth, source) && Field(r.value, ID) == key
  {
    Mixin.GetSingleDictResult(st, ext, Experiment, key, depth, source);
    GetSingleDict(st, ext, Experiment, key, depth, source)
  }

  /** The hook does nothing once the depth is used up. */
  lemma ExperimentHookAtDepthZero(st: Store, ext: Outside, e: Record, depth: int, source: Collection)
    requires depth <= 0
    ensures ExpandExperiment(st, ext, e, depth, source) == e
  {
  }

  /** The hook does nothing for a read coming from an activity execution. */
  lemma ExperimentHookFromExecution(st: Store, ext: Outside, e: Record, depth: int)
    ensures ExpandExperiment(st, ext, e, depth, ActivityExecution) == e
  {
  }

  /** The hook does nothing when no scenario starts at the experiment. */
  lemma ExperimentHookWithoutScenario(st: Store, ext: Outside, e: Record, depth: int, source: Collection)
    requires forall i :: 0 <= i < |Docs(st, Scenario)| ==> !Satisfies(Field(Docs(st, Scenario)[i], EXPERIMENT_ID), Is(Field(e, ID)))
    ensures ExpandExperiment(st, ext, e, depth, source) == e
  {
    Scenarios.ScenarioByExperimentResult(st, ext, Field(e, ID), 0);
  }

  /** Otherwise the experiment's `activity_executions` become those of the first
      scenario starting at it, hydrated at depth 0: one execution read (at depth 0,
      tagged as coming from activity executions) per stored id, in order. Every
      other field is left as it is. */
  lemma ExperimentHookListsScenario(st: Store, ext: Outside, e: Record, depth: int, source: Collection, i: nat)
    requires depth > 0 && source != ActivityExecution
    requires FirstMatch(Docs(st, Scenario), [KeyIs(EXPERIMENT_ID, Field(e, ID))], i)
    ensures var ids := Items(Field(Docs(st, Scenario)[i], ACTIVITY_EXECUTIONS));
      var out := ExpandExperiment(st, ext, e, depth, source);
      out == e[ACTIVITY_EXECUTIONS := List(ExecutionsByIds(st, ext, ids, 0))]
      && |Items(out[ACTIVITY_EXECUTIONS])| == |ids|
      && forall j :: 0 <= j < |ids| ==>
           Items(out[ACTIVITY_EXECUTIONS])[j] == AsValue(GetSingleDictExecution(st, ext, ids[j], 0, ActivityExecution))
  {
    Scenarios.ScenarioByExperimentResult(st, ext, Field(e, ID), 0);
  }
}
