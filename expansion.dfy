/** The depth-bounded, direction-tagged expansion engine: every read path of the
    core services and every `_add_related_documents` hook, over one value of the
    document store.

    The services call each other recursively (an activity execution expands its
    scenarios, whose hydration fetches activity executions again), so all of them
    live in this one module. Each read takes a `depth` and a `source` tag; a hook
    does nothing at `depth <= 0`, skips the relation named by `source`, and fetches
    related documents at `depth - 1` tagged with its own collection. The one hop
    that keeps the depth is activity execution -> scenario; scenario hydration then
    fetches at `max(depth - 1, 0)`. Termination is proved with the measure
    (Level(depth), rank, size) given in each `decreases` clause.

    The hooks of the source update the fetched dictionary in place; each dictionary
    is a fresh copy owned by the caller, so here a hook returns the updated copy. */
module Expansion {
  import opened Common
  import opened Storage

  /** A read sent to a service outside this model (participations, time series,
      appearances), with exactly the arguments the caller passes. */
  datatype Request = Request(service: Collection, query: Query, depth: int, source: Collection)

  /** What those services answer. */
  type Outside = Request -> seq<Record>

  /** The depth left, counting anything below zero as zero. */
  function Level(depth: int): nat {
    if depth <= 0 then 0 else depth
  }

  /** `max(x, 0)` */
  function Max0(x: int): int {
    if x > 0 then x else 0
  }

  /** A query on an embedded collection, with every filter key `k` rewritten to
      `field.k` so that it applies to the embedding documents. */
  function Rewrite(q: Query, field: string): (out: Query)
    ensures |out| == |q|
    ensures forall i :: 0 <= i < |q| ==> out[i] == Term([field] + q[i].path, q[i].cond)
  {
    seq(|q|, i requires 0 <= i < |q| => Term([field] + q[i].path, q[i].cond))
  }

  /** A rewritten term holds of an embedding document exactly when one element of
      its embedded array satisfies the original term. */
  lemma RewrittenTermHolds(d: Record, field: string, t: Term)
    requires t.path != [] && Field(d, field).List?
    ensures Holds(d, Rewrite([t], field)[0]) <==>
      exists i :: 0 <= i < |Field(d, field).items| && Reaches(Field(d, field).items[i], t.path, t.cond)
  {
    var path := [field] + t.path;
    assert path[0] == field && path[1..] == t.path;
    assert Rewrite([t], field)[0] == Term(path, t.cond);
    assert Holds(d, Term(path, t.cond)) == Reaches(Obj(d), path, t.cond);
    assert Reaches(Obj(d), path, t.cond) == Reaches(Field(d, field), t.path, t.cond);
  }

  /** `_get_activity_projection`: the embedded executions (only the ones matching
      `q` when `q` is not empty) and the fields an execution needs of its activity. */
  function ActivityProjection(q: Query): Projection {
    Fields({"additional_properties", ACTIVITY_ID, ARRANGEMENT_ID}, ACTIVITY_EXECUTIONS,
           if q == [] then Whole else MatchingOnly(q))
  }

  /** The projection a participant-state read uses to fetch its participants: the
      embedded states matching `q` and the participant's own fields. */
  function ParticipantProjection(q: Query): Projection {
    Fields({"additional_properties", "name", "date_of_birth", "sex", "disorder"}, PARTICIPANT_STATES,
           MatchingOnly(q))
  }

  /** `_get_participant_projection` as written: the dictionary names the states
      array twice, and the later entry, "the whole array", replaces the filtered
      one, so every state of the participant comes back. */
  function StateProjectionAsWritten(): Projection {
    Fields({"additional_properties", "name", "date_of_birth", "sex", "disorder"}, PARTICIPANT_STATES, Whole)
  }

  /** The experiment of each hydrated scenario, in order. */
  function ExperimentsOf(scenarios: seq<Record>): (out: seq<Value>)
    ensures |out| == |scenarios|
    ensures forall i :: 0 <= i < |scenarios| ==> out[i] == Field(scenarios[i], "experiment")
  {
    seq(|scenarios|, i requires 0 <= i < |scenarios| => Field(scenarios[i], "experiment"))
  }

  // ---------------------------------------------------------------------------
  // Generic reads of the mixin-based services

  /** `get_single_dict` of a mixin-based service: the stored document expanded by
      that service's hook, or the not-found marker untouched. */
  function GetSingleDict(st: Store, ext: Outside, c: Collection, key: Value, depth: int, source: Collection): Lookup<Record>
    decreases Level(depth), 5, 0
  {
    match GetDocument(st, c, key)
    case NotFound(k) => NotFound(k)
    case Found(r) => Found(Expand(st, ext, c, r, depth, source))
  }

  /** `get_multiple` of a mixin-based service: the matching documents in storage
      order, each expanded by that service's hook with the same depth and source. */
  function GetMultiple(st: Store, ext: Outside, c: Collection, q: Query, p: Projection, depth: int, source: Collection): seq<Record>
    decreases Level(depth), 5, 0
  {
    ExpandEach(st, ext, c, GetDocuments(st, c, q, p), depth, source)
  }

  function ExpandEach(st: Store, ext: Outside, c: Collection, rs: seq<Record>, depth: int, source: Collection): (out: seq<Record>)
    ensures |out| == |rs|
    ensures forall i :: 0 <= i < |rs| ==> out[i] == Expand(st, ext, c, rs[i], depth, source)
    decreases Level(depth), 4, |rs|
  {
    if rs == [] then []
    else [Expand(st, ext, c, rs[0], depth, source)] + ExpandEach(st, ext, c, rs[1..], depth, source)
  }

  /** The `_add_related_documents` hook of the service owning collection `c`. The
      scenario hook is `pass`; hooks of services outside this model are left out. */
  function Expand(st: Store, ext: Outside, c: Collection, r: Record, depth: int, source: Collection): Record
    decreases Level(depth), 3, 0
  {
    match c
    case Experiment => ExpandExperiment(st, ext, r, depth, source)
    case Arrangement => ExpandArrangement(st, ext, r, depth, source)
    case Measure => ExpandMeasure(st, ext, r, depth, source)
    case MeasureName => ExpandMeasureName(st, ext, r, depth, source)
    case Participant => ExpandParticipant(st, ext, r, depth, source)
    case Personality => ExpandPersonality(st, ext, r, depth, source)
    case _ => r
  }

  // ---------------------------------------------------------------------------
  // Hooks

  /** Experiment: unless the read came from an activity execution, the executions
      of the scenario starting at this experiment (that scenario read at depth 0). */
  function ExpandExperiment(st: Store, ext: Outside, e: Record, depth: int, source: Collection): Record
    decreases Level(depth), 2, 0
  {
    if depth <= 0 || source == ActivityExecution then e
    else match ScenarioByExperiment(st, ext, Field(e, ID), 0)
      case NotFound(_) => e
      case Found(scenario) => e[ACTIVITY_EXECUTIONS := Field(scenario, ACTIVITY_EXECUTIONS)]
  }

  /** Arrangement: unless the read came from an activity execution, the executions
      of this arrangement. */
  function ExpandArrangement(st: Store, ext: Outside, a: Record, depth: int, source: Collection): Record
    decreases Level(depth), 2, 0
  {
    if source != ActivityExecution && depth > 0 then
      a[ACTIVITY_EXECUTIONS := List(Objs(GetMultipleExecutions(st, ext, [KeyIs(ARRANGEMENT_ID, Field(a, ID))], depth - 1, Arrangement)))]
    else a
  }

  /** Measure name: unless the read came from a measure, the measures of this name. */
  function ExpandMeasureName(st: Store, ext: Outside, n: Record, depth: int, source: Collection): Record
    decreases Level(depth), 2, 0
  {
    if source != Measure && depth > 0 then
      n["measures" := List(Objs(GetMultiple(st, ext, Measure, [KeyIs(MEASURE_NAME_ID, Field(n, ID))], Everything, depth - 1, MeasureName)))]
    else n
  }

  /** Measure: its time series (unless the read came from one) and its measure name
      (when set, unless the read came from measure names). */
  function ExpandMeasure(st: Store, ext: Outside, m: Record, depth: int, source: Collection): Record
    decreases Level(depth), 2, 0
  {
    if depth <= 0 then m
    else
      var withSeries :=
        if source != TimeSeries then
          m["time_series" := List(Objs(ext(Request(TimeSeries, [KeyIs("measure_id", Field(m, ID))], depth - 1, Measure))))]
        else m;
      var nameId := Field(m, MEASURE_NAME_ID);
      if source != MeasureName && nameId != Null then
        withSeries["measure_name" := AsValue(GetSingleDict(st, ext, MeasureName, nameId, depth - 1, Measure))]
      else withSeries
  }

  /** Participant: unless the read came from participant states, each embedded
      state expanded in place at `depth - 1`, tagged as coming from the participant. */
  function ExpandParticipant(st: Store, ext: Outside, p: Record, depth: int, source: Collection): Record
    decreases Level(depth), 2, 0
  {
    if depth > 0 && source != ParticipantState && Field(p, PARTICIPANT_STATES) != Null then
      p[PARTICIPANT_STATES := List(Objs(ExpandStates(st, ext, Items(p[PARTICIPANT_STATES]), depth - 1, Participant, Obj(p))))]
    else p
  }

  /** Personality: unless the read came from participant states, what the
      participant-state `get_multiple` returns, as written, for the states listing
      this personality. */
  function ExpandPersonality(st: Store, ext: Outside, p: Record, depth: int, source: Collection): Record
    decreases Level(depth), 2, 0
  {
    if depth > 0 && source != ParticipantState then
      p[PARTICIPANT_STATES := List(Objs(GetMultipleStatesAsWritten(st, ext, [KeyIs(PERSONALITY_IDS, Field(p, ID))], depth - 1, Personality)))]
    else p
  }

  /** Participant state: its personalities and appearances (each skipped when its id
      list is null or the read came from it), its participations, and the
      already-fetched `participant` (unless the read came from the participant). */
  function ExpandParticipantState(st: Store, ext: Outside, s: Record, depth: int, source: Collection, participant: Value): Record
    decreases Level(depth), 2, 0
  {
    if depth <= 0 then s
    else
      var personalityIds := Field(s, PERSONALITY_IDS);
      var s1 :=
        if personalityIds == Null || source == Personality then s
        else s["personalities" := List(Objs(GetMultiple(st, ext, Personality, [Term([ID], In(Items(personalityIds)))], Everything, depth - 1, ParticipantState)))];
      var appearanceIds := Field(s, APPEARANCE_IDS);
      var s2 :=
        if appearanceIds == Null || source == Appearance then s1
        else s1["appearances" := List(Objs(ext(Request(Appearance, [Term([ID], In(Items(appearanceIds)))], depth - 1, ParticipantState))))];
      var s3 :=
        if source != Participation then
          s2["participations" := List(Objs(ext(Request(Participation, [KeyIs("participant_state_id", Field(s, ID))], depth - 1, ParticipantState))))]
        else s2;
      if source != Participant then s3["participant" := participant] else s3
  }

  function ExpandStates(st: Store, ext: Outside, vs: seq<Value>, depth: int, source: Collection, participant: Value): (out: seq<Record>)
    ensures |out| == |vs|
    ensures forall i :: 0 <= i < |vs| ==> out[i] == ExpandParticipantState(st, ext, AsRecord(vs[i]), depth, source, participant)
    decreases Level(depth), 3, |vs|
  {
    if vs == [] then []
    else [ExpandParticipantState(st, ext, AsRecord(vs[0]), depth, source, participant)] + ExpandStates(st, ext, vs[1..], depth, source, participant)
  }

  /** Activity execution: its arrangement (when set, unless the read came from
      arrangements), the experiment of every scenario containing it (unless the read
      came from experiments; nothing when no scenario contains it), its
      participations (unless the read came from them) and the already-fetched
      `activity`, attached without a new read (unless the read came from activities). */
  function ExpandExecution(st: Store, ext: Outside, e: Record, depth: int, source: Collection, activity: Record): Record
    decreases Level(depth), 2, 0
  {
    if depth <= 0 then e
    else
      var arrangementId := Field(e, ARRANGEMENT_ID);
      var s1 :=
        if source != Arrangement && arrangementId != Null then
          e["arrangement" := AsValue(GetSingleDict(st, ext, Arrangement, arrangementId, depth - 1, ActivityExecution))]
        else e;
      var s2 :=
        if source == Experiment then s1
        else match ScenariosOfExecution(st, ext, Field(e, ID), depth)
          case NotFound(_) => s1
          case Found(scenarios) => s1["experiments" := List(ExperimentsOf(scenarios))];
      var s3 :=
        if source != Participation then
          s2["participations" := List(Objs(ext(Request(Participation, [KeyIs("activity_execution_id", Field(e, ID))], depth - 1, ActivityExecution))))]
        else s2;
      if source != Activity then s3["activity" := Obj(activity)] else s3
  }

  function ExpandExecutions(st: Store, ext: Outside, vs: seq<Value>, depth: int, source: Collection, activity: Record): (out: seq<Record>)
    ensures |out| == |vs|
    ensures forall i :: 0 <= i < |vs| ==> out[i] == ExpandExecution(st, ext, AsRecord(vs[i]), depth, source, activity)
    decreases Level(depth), 4, |vs|
  {
    if vs == [] then []
    else [ExpandExecution(st, ext, AsRecord(vs[0]), depth, source, activity)] + ExpandExecutions(st, ext, vs[1..], depth, source, activity)
  }

  // ---------------------------------------------------------------------------
  // Embedded collections

  /** Activity executions `get_multiple`: the activities holding a matching
      execution (projected to the matching executions), and of each activity that
      still has its array, those executions expanded with that activity, detached
      from its array, as their parent. The activity service's own hook is not
      part of this model, so the activities are read as stored. */
  function GetMultipleExecutions(st: Store, ext: Outside, q: Query, depth: int, source: Collection): seq<Record>
    decreases Level(depth), 6, 0
  {
    ExecutionsOfActivities(st, ext, GetDocuments(st, Activity, Rewrite(q, ACTIVITY_EXECUTIONS), ActivityProjection(q)), depth, source)
  }

  function ExecutionsOfActivities(st: Store, ext: Outside, activities: seq<Record>, depth: int, source: Collection): seq<Record>
    decreases Level(depth), 5, |activities|
  {
    if activities == [] then []
    else
      var a := activities[0];
      var own :=
        if ACTIVITY_EXECUTIONS in a then ExpandExecutions(st, ext, Items(a[ACTIVITY_EXECUTIONS]), depth, source, Without(a, ACTIVITY_EXECUTIONS))
        else [];
      own + ExecutionsOfActivities(st, ext, activities[1..], depth, source)
  }

  /** The execution `get_single_dict` lifts out: the first kept execution of the
      first activity matching the id filter, with that activity, its array
      removed, as parent; nothing when no activity matches or its kept array is
      empty. */
  function LiftExecution(st: Store, key: Value): (lifted: Option<(Record, Record)>)
    ensures lifted.Some? ==> Satisfies(Field(lifted.value.0, ID), Is(key))
    ensures lifted.Some? ==>
      (ACTIVITY_EXECUTIONS !in lifted.value.1
       && forall k :: k in lifted.value.1 ==> k in {ID, "additional_properties", ACTIVITY_ID, ARRANGEMENT_ID})
  {
    var q := [KeyIs(ID, key)];
    var selected := Select(Docs(st, Activity), Rewrite(q, ACTIVITY_EXECUTIONS));
    if |selected| == 0 then None
    else
      var projected := Project(ActivityProjection(q), selected[0]);
      var hits := Items(Field(projected, ACTIVITY_EXECUTIONS));
      if |hits| == 0 then None
      else
        LiftedMatches(selected[0], key, hits);
        ProjectKeys(ActivityProjection(q), selected[0]);
        Some((AsRecord(hits[0]), Without(projected, ACTIVITY_EXECUTIONS)))
  }

  /** What the `$elemMatch` projection keeps satisfies the id filter. */
  lemma LiftedMatches(a: Record, key: Value, hits: seq<Value>)
    requires |hits| > 0
    requires hits == Items(Field(Project(ActivityProjection([KeyIs(ID, key)]), a), ACTIVITY_EXECUTIONS))
    ensures Satisfies(Field(AsRecord(hits[0]), ID), Is(key))
  {
    var q := [KeyIs(ID, key)];
    var e := AsRecord(hits[0]);
    assert ACTIVITY_EXECUTIONS in a;
    assert hits == MatchingElements(Items(a[ACTIVITY_EXECUTIONS]), q);
    assert Matches(e, q) && Holds(e, q[0]);
    assert Reaches(Obj(e), [ID], Is(key));
  }

  /** Activity execution `get_single_dict`: the lifted execution expanded with its
      parent; not found when nothing is lifted. A key that is not an object id
      matches nothing. */
  function GetSingleDictExecution(st: Store, ext: Outside, key: Value, depth: int, source: Collection): Lookup<Record>
    decreases Level(depth), 6, 0
  {
    if !key.Ref? then NotFound(key)
    else match LiftExecution(st, key)
      case None => NotFound(key)
      case Some(lifted) => Found(ExpandExecution(st, ext, lifted.0, depth, source, lifted.1))
  }

  /** Participant states `get_multiple`: the participants holding a matching state,
      read at `depth - 1` tagged as coming from participant states, and of each
      participant that still has its array, those states expanded with the same
      depth and source and that participant, detached from its array, as parent. */
  function GetMultipleStates(st: Store, ext: Outside, q: Query, depth: int, source: Collection): seq<Record>
    decreases Level(depth), 7, 0
  {
    var participants := GetMultiple(st, ext, Participant, Rewrite(q, PARTICIPANT_STATES), ParticipantProjection(q), depth - 1, ParticipantState);
    StatesOfParticipants(st, ext, participants, depth, source)
  }

  function StatesOfParticipants(st: Store, ext: Outside, participants: seq<Record>, depth: int, source: Collection): seq<Record>
    decreases Level(depth), 4, |participants|
  {
    if participants == [] then []
    else
      var p := participants[0];
      var own :=
        if PARTICIPANT_STATES in p then ExpandStates(st, ext, Items(p[PARTICIPANT_STATES]), depth, source, Obj(Without(p, PARTICIPANT_STATES)))
        else [];
      own + StatesOfParticipants(st, ext, participants[1..], depth, source)
  }

  /** The participants a states read fetched, each as the parent a state is given:
      detached from its array. */
  function Holders(ps: seq<Record>): (out: seq<Value>)
    ensures |out| == |ps|
    ensures forall j :: 0 <= j < |ps| ==> out[j] == Obj(Without(ps[j], PARTICIPANT_STATES))
  {
    seq(|ps|, j requires 0 <= j < |ps| => Obj(Without(ps[j], PARTICIPANT_STATES)))
  }

  /** `get_multiple` as written: the whole arrays come back (see the projection),
      each state is given to the hook one level shallower than asked, and every
      state gets as parent the list of all the participants read. */
  function GetMultipleStatesAsWritten(st: Store, ext: Outside, q: Query, depth: int, source: Collection): seq<Record>
    decreases Level(depth), 7, 0
  {
    var participants := GetMultiple(st, ext, Participant, Rewrite(q, PARTICIPANT_STATES), StateProjectionAsWritten(), depth - 1, ParticipantState);
    StatesAsWritten(st, ext, participants, depth, source, List(Holders(participants)))
  }

  function StatesAsWritten(st: Store, ext: Outside, ps: seq<Record>, depth: int, source: Collection, parents: Value): seq<Record>
    decreases Level(depth), 4, |ps|
  {
    if ps == [] then []
    else
      (if PARTICIPANT_STATES in ps[0] then ExpandStates(st, ext, Items(ps[0][PARTICIPANT_STATES]), depth - 1, source, parents) else [])
      + StatesAsWritten(st, ext, ps[1..], depth, source, parents)
  }

  // ---------------------------------------------------------------------------
  // Scenarios

  /** `_change_ids_to_objects`: the stored execution ids replaced one for one by the
      executions (read at `max(depth - 1, 0)`, tagged as coming from activity
      executions) and the experiment attached (same depth, tagged as coming from
      experiments). */
  function Hydrate(st: Store, ext: Outside, scenario: Record, depth: int): Record
    decreases Level(depth - 1), 9, 0
  {
    var d := Max0(depth - 1);
    var withExecutions := scenario[ACTIVITY_EXECUTIONS := List(ExecutionsByIds(st, ext, Items(Field(scenario, ACTIVITY_EXECUTIONS)), d))];
    withExecutions["experiment" := AsValue(GetSingleDict(st, ext, Experiment, Field(withExecutions, EXPERIMENT_ID), d, Experiment))]
  }

  function HydrateEach(st: Store, ext: Outside, scenarios: seq<Record>, depth: int): (out: seq<Record>)
    ensures |out| == |scenarios|
    ensures forall i :: 0 <= i < |scenarios| ==> out[i] == Hydrate(st, ext, scenarios[i], depth)
    decreases Level(depth - 1), 9, |scenarios|
  {
    seq(|scenarios|, i requires 0 <= i < |scenarios| => Hydrate(st, ext, scenarios[i], depth))
  }

  /** `_change_ae_ids_to_objects`: one execution read per id, in order. */
  function ExecutionsByIds(st: Store, ext: Outside, ids: seq<Value>, depth: int): (out: seq<Value>)
    ensures |out| == |ids|
    ensures forall i :: 0 <= i < |ids| ==> out[i] == AsValue(GetSingleDictExecution(st, ext, ids[i], depth, ActivityExecution))
    decreases Level(depth), 8, |ids|
  {
    if ids == [] then []
    else [AsValue(GetSingleDictExecution(st, ext, ids[0], depth, ActivityExecution))] + ExecutionsByIds(st, ext, ids[1..], depth)
  }

  /** The stored scenarios whose execution list contains `key`, in storage order. */
  function ScenariosContaining(st: Store, ext: Outside, key: Value): seq<Record>
    decreases 0, 6, 0
  {
    GetMultiple(st, ext, Scenario, [KeyIs(ACTIVITY_EXECUTIONS, key)], Everything, 0, NoSource)
  }

  /** `get_scenario_by_activity_execution` with `multiple` set: every scenario
      containing the execution, hydrated; not found when there is none. */
  function ScenariosOfExecution(st: Store, ext: Outside, key: Value, depth: int): Lookup<seq<Record>>
    decreases Level(depth - 1), 10, 0
  {
    var scenarios := ScenariosContaining(st, ext, key);
    if |scenarios| == 0 then NotFound(key) else Found(HydrateEach(st, ext, scenarios, depth))
  }

  /** `get_scenario_by_activity_execution` with `multiple` unset: the first
      scenario containing the execution, hydrated; not found when there is none. */
  function ScenarioOfExecution(st: Store, ext: Outside, key: Value, depth: int): Lookup<Record>
    decreases Level(depth - 1), 10, 0
  {
    var scenarios := ScenariosContaining(st, ext, key);
    if |scenarios| == 0 then NotFound(key) else Found(Hydrate(st, ext, scenarios[0], depth))
  }

  /** `get_scenario_by_experiment`: the first scenario starting at the experiment,
      hydrated; not found when there is none. */
  function ScenarioByExperiment(st: Store, ext: Outside, key: Value, depth: int): Lookup<Record>
    decreases Level(depth - 1), 10, 0
  {
    var scenarios := GetMultiple(st, ext, Scenario, [KeyIs(EXPERIMENT_ID, key)], Everything, 0, NoSource);
    if |scenarios| == 0 then NotFound(key) else Found(Hydrate(st, ext, scenarios[0], depth))
  }
}
