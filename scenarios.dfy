/** The scenario service: each scenario stores its experiment id and the ordered
    list of the ids of its activity executions. The order is the execution
    order; it changes only through insert-after, remove and change-order, and
    every read re-hydrates the ids into executions. */
module Scenarios {
  import opened Common
  import opened Storage
  import opened Expansion
  import opened Edits
  import Mixin
  import ActivityExecutions

  // ---------------------------------------------------------------------------
  // The list operations on the id sequence

  /** `list.index`: the first slot holding `v`; nothing (the source raises) when there is none. */
  function IndexOf(vs: seq<Value>, v: Value): (r: Option<nat>)
    ensures r.Some? ==> r.value < |vs| && vs[r.value] == v
    ensures r.Some? ==> forall j :: 0 <= j < r.value ==> vs[j] != v
    ensures r.None? <==> v !in vs
  {
    if vs == [] then None
    else if vs[0] == v then Some(0)
    else match IndexOf(vs[1..], v)
      case None => None
      case Some(i) => Some(i + 1)
  }

  /** `list.insert(i, v)` for a slot within the list: `v` at slot `i`, the slots
      before it unchanged and the ones from `i` on shifted up by one. */
  function InsertAt(vs: seq<Value>, i: nat, v: Value): (out: seq<Value>)
    requires i <= |vs|
    ensures |out| == |vs| + 1
    ensures out[i] == v
    ensures forall j :: 0 <= j < i ==> out[j] == vs[j]
    ensures forall j :: i < j < |out| ==> out[j] == vs[j - 1]
    ensures multiset(out) == multiset(vs) + multiset{v}
  {
    assert vs == vs[..i] + vs[i..];
    vs[..i] + [v] + vs[i..]
  }

  /** `list.remove(v)`: the list without the first occurrence of `v`; nothing (the
      source raises) when `v` is not in it. */
  function RemoveValue(vs: seq<Value>, v: Value): (out: Option<seq<Value>>)
    ensures out.None? <==> v !in vs
    ensures out.Some? ==> out.value == DeleteAt(vs, IndexOf(vs, v).value)
  {
    match IndexOf(vs, v)
    case None => None
    case Some(k) => Some(DeleteAt(vs, k))
  }

  /** The order change on one list: `x` taken out, then put back right after `p`.
      The list keeps its elements, `p` stays in it, and `x` directly follows it. */
  lemma MoveAfter(vs: seq<Value>, x: Value, p: Value)
    requires x in vs && p in vs && x != p
    ensures var removed := RemoveValue(vs, x).value;
      IndexOf(removed, p).Some?
      && var k := IndexOf(removed, p).value;
      var moved := InsertAt(removed, k + 1, x);
      moved[k] == p && moved[k + 1] == x && multiset(moved) == multiset(vs)
  {
    var removed := RemoveValue(vs, x).value;
    var i := IndexOf(vs, x).value;
    var j :| 0 <= j < |vs| && vs[j] == p;
    assert j != i;
    if j < i {
      assert removed[j] == p;
    } else {
      assert removed[j - 1] == p;
    }
    assert multiset(removed) + multiset{x} == multiset(vs);
  }

  /** Inserting after `a` in `[a, b, c]` gives `[a, x, b, c]`. */
  lemma InsertAfterExample(a: Value, b: Value, c: Value, x: Value)
    requires a != b && a != c
    ensures IndexOf([a, b, c], a) == Some(0)
    ensures InsertAt([a, b, c], 0 + 1, x) == [a, x, b, c]
  {
  }

  /** Moving `a` after `c` in `[a, b, c]` gives `[b, c, a]`. */
  lemma MoveAfterExample(a: Value, b: Value, c: Value)
    requires a != b && a != c && b != c
    ensures RemoveValue([a, b, c], a) == Some([b, c])
    ensures IndexOf([b, c], c) == Some(1)
    ensures InsertAt([b, c], 1 + 1, a) == [b, c, a]
  {
    RemoveHead(a, b, c);
    AppendBySlot(b, c, a);
  }

  /** Inserting at the end of `[b, c]` gives `[b, c, a]`. */
  lemma AppendBySlot(b: Value, c: Value, a: Value)
    ensures InsertAt([b, c], 2, a) == [b, c, a]
  {
    var moved := InsertAt([b, c], 2, a);
    assert moved[0] == b && moved[1] == c && moved[2] == a;
  }

  /** Removing the head of `[a, b, c]` leaves `[b, c]`. */
  lemma RemoveHead(a: Value, b: Value, c: Value)
    ensures RemoveValue([a, b, c], a) == Some([b, c])
  {
    var removed := DeleteAt([a, b, c], 0);
    assert removed[0] == b && removed[1] == c;
    assert removed == [b, c];
  }

  // ---------------------------------------------------------------------------
  // Lookups

  /** The stored scenarios matching a filter: `get_multiple` of this service at its
      default depth. The scenario hook is `pass`, so this is the plain selection. */
  lemma ScenarioQuery(st: Store, ext: Outside, q: Query)
    ensures GetMultiple(st, ext, Scenario, q, Everything, 0, NoSource) == Select(Docs(st, Scenario), q)
  {
    var selected := Select(Docs(st, Scenario), q);
    var out := GetMultiple(st, ext, Scenario, q, Everything, 0, NoSource);
    assert |out| == |selected|;
    forall i | 0 <= i < |selected| ensures out[i] == selected[i] {
      assert GetDocuments(st, Scenario, q, Everything)[i] == selected[i];
    }
  }

  /** Hydration keeps the scenario's id. */
  lemma HydrateKeepsId(st: Store, ext: Outside, s: Record, depth: int)
    ensures Field(Hydrate(st, ext, s, depth), ID) == Field(s, ID)
  {
  }

  /** `_change_ids_to_objects`: the id list is replaced one for one, in order, by
      the executions read at `max(depth - 1, 0)` tagged as coming from activity
      executions; the experiment is attached, read at the same depth tagged as
      coming from experiments; every other field is kept. */
  lemma HydrateReplacesIds(st: Store, ext: Outside, s: Record, depth: int)
    ensures var h := Hydrate(st, ext, s, depth);
      ACTIVITY_EXECUTIONS in h && h[ACTIVITY_EXECUTIONS].List?
      && |h[ACTIVITY_EXECUTIONS].items| == |Items(Field(s, ACTIVITY_EXECUTIONS))|
      && (forall i :: 0 <= i < |Items(Field(s, ACTIVITY_EXECUTIONS))| ==>
            h[ACTIVITY_EXECUTIONS].items[i]
            == AsValue(GetSingleDictExecution(st, ext, Items(Field(s, ACTIVITY_EXECUTIONS))[i], Max0(depth - 1), ActivityExecution)))
      && "experiment" in h
      && h["experiment"] == AsValue(GetSingleDict(st, ext, Experiment, Field(s, EXPERIMENT_ID), Max0(depth - 1), Experiment))
      && (forall k :: k in s && k != ACTIVITY_EXECUTIONS && k != "experiment" ==> k in h && h[k] == s[k])
  {
  }

  /** `_change_ids_to_objects` as the source runs it: one execution read per id, in
      order, overwriting the id list, then the experiment read. */
  method HydrateScenario(st: Store, ext: Outside, scenario: Record, depth: int) returns (out: Record)
    ensures out == Hydrate(st, ext, scenario, depth)
  {
    var d := if depth - 1 > 0 then depth - 1 else 0;
    var ids := Items(Field(scenario, ACTIVITY_EXECUTIONS));
    var executions := [];
    var i := 0;
    while i < |ids|
      invariant 0 <= i <= |ids|
      invariant |executions| == i
      invariant forall j :: 0 <= j < i ==> executions[j] == AsValue(GetSingleDictExecution(st, ext, ids[j], d, ActivityExecution))
    {
      executions := executions + [AsValue(GetSingleDictExecution(st, ext, ids[i], d, ActivityExecution))];
      i := i + 1;
    }
    assert executions == ExecutionsByIds(st, ext, ids, d);
    out := scenario[ACTIVITY_EXECUTIONS := List(executions)];
    out := out["experiment" := AsValue(GetSingleDict(st, ext, Experiment, Field(out, EXPERIMENT_ID), d, Experiment))];
  }

  /** `get_scenario_by_activity_execution`, first match: not found exactly when no
      stored scenario lists the execution; otherwise the first one that does,
      hydrated. */
  lemma ScenarioOfExecutionResult(st: Store, ext: Outside, key: Value, depth: int)
    ensures ScenarioOfExecution(st, ext, key, depth).NotFound? <==>
      forall i :: 0 <= i < |Docs(st, Scenario)| ==> !Satisfies(Field(Docs(st, Scenario)[i], ACTIVITY_EXECUTIONS), Is(key))
    ensures ScenarioOfExecution(st, ext, key, depth).NotFound? ==> ScenarioOfExecution(st, ext, key, depth).key == key
    ensures forall i: nat :: FirstMatch(Docs(st, Scenario), [KeyIs(ACTIVITY_EXECUTIONS, key)], i) ==>
      ScenarioOfExecution(st, ext, key, depth) == Found(Hydrate(st, ext, Docs(st, Scenario)[i], depth))
  {
    var rs := Docs(st, Scenario);
    var q := [KeyIs(ACTIVITY_EXECUTIONS, key)];
    ScenarioQuery(st, ext, q);
    SelectEmpty(rs, q);
    forall i | 0 <= i < |rs| ensures Matches(rs[i], q) <==> Satisfies(Field(rs[i], ACTIVITY_EXECUTIONS), Is(key)) {
      KeyIsMatches(rs[i], ACTIVITY_EXECUTIONS, key);
    }
    forall i: nat | FirstMatch(rs, q, i) ensures ScenarioOfExecution(st, ext, key, depth) == Found(Hydrate(st, ext, rs[i], depth)) {
      SelectFirst(rs, q, i);
    }
  }

  /** `get_scenario_by_activity_execution` with `multiple` set: every stored
      scenario listing the execution, in storage order, each hydrated. */
  lemma ScenariosOfExecutionResult(st: Store, ext: Outside, key: Value, depth: int)
    ensures ScenariosOfExecution(st, ext, key, depth).NotFound? <==>
      forall i :: 0 <= i < |Docs(st, Scenario)| ==> !Satisfies(Field(Docs(st, Scenario)[i], ACTIVITY_EXECUTIONS), Is(key))
    ensures ScenariosOfExecution(st, ext, key, depth).Found? ==>
      var hydrated := ScenariosOfExecution(st, ext, key, depth).value;
      var listing := Select(Docs(st, Scenario), [KeyIs(ACTIVITY_EXECUTIONS, key)]);
      |hydrated| == |listing| && forall i :: 0 <= i < |listing| ==> hydrated[i] == Hydrate(st, ext, listing[i], depth)
  {
    var rs := Docs(st, Scenario);
    var q := [KeyIs(ACTIVITY_EXECUTIONS, key)];
    ScenarioQuery(st, ext, q);
    SelectEmpty(rs, q);
    forall i | 0 <= i < |rs| ensures Matches(rs[i], q) <==> Satisfies(Field(rs[i], ACTIVITY_EXECUTIONS), Is(key)) {
      KeyIsMatches(rs[i], ACTIVITY_EXECUTIONS, key);
    }
  }

  /** `get_scenario_by_experiment`: not found exactly when no stored scenario starts
      at the experiment; otherwise the first one that does, hydrated. */
  lemma ScenarioByExperimentResult(st: Store, ext: Outside, key: Value, depth: int)
    ensures ScenarioByExperiment(st, ext, key, depth).NotFound? <==>
      forall i :: 0 <= i < |Docs(st, Scenario)| ==> !Satisfies(Field(Docs(st, Scenario)[i], EXPERIMENT_ID), Is(key))
    ensures ScenarioByExperiment(st, ext, key, depth).NotFound? ==> ScenarioByExperiment(st, ext, key, depth).key == key
    ensures forall i: nat :: FirstMatch(Docs(st, Scenario), [KeyIs(EXPERIMENT_ID, key)], i) ==>
      ScenarioByExperiment(st, ext, key, depth) == Found(Hydrate(st, ext, Docs(st, Scenario)[i], depth))
  {
    var rs := Docs(st, Scenario);
    var q := [KeyIs(EXPERIMENT_ID, key)];
    ScenarioQuery(st, ext, q);
    SelectEmpty(rs, q);
    forall i | 0 <= i < |rs| ensures Matches(rs[i], q) <==> Satisfies(Field(rs[i], EXPERIMENT_ID), Is(key)) {
      KeyIsMatches(rs[i], EXPERIMENT_ID, key);
    }
    forall i: nat | FirstMatch(rs, q, i) ensures ScenarioByExperiment(st, ext, key, depth) == Found(Hydrate(st, ext, rs[i], depth)) {
      SelectFirst(rs, q, i);
    }
  }

  /** How `get_scenario_by_element_id` resolved an element id: as an experiment, as
      an activity execution, or as neither. */
  datatype Placement = FromExperiment(scenario: Lookup<Record>) | FromExecution(scenario: Lookup<Record>) | Nowhere

  /** `get_scenario_by_element_id`: the id is tried as an experiment first (each
      lookup a plain read), then as an activity execution. */
  function ElementScenario(st: Store, ext: Outside, key: Value, depth: int): Placement {
    if GetSingleDict(st, ext, Experiment, key, 0, NoSource).Found? then FromExperiment(ScenarioByExperiment(st, ext, key, depth))
    else if GetSingleDictExecution(st, ext, key, 0, NoSource).Found? then FromExecution(ScenarioOfExecution(st, ext, key, depth))
    else Nowhere
  }

  /** `get_scenario`: the scenario of the element; not found when the element is
      neither an experiment nor an execution. */
  function GetScenario(st: Store, ext: Outside, key: Value, depth: int): Lookup<Record> {
    match ElementScenario(st, ext, key, depth)
    case Nowhere => NotFound(key)
    case FromExperiment(s) => s
    case FromExecution(s) => s
  }

  /** The resolution order: an id that names an experiment is resolved as one, even
      when an execution has the same id; otherwise an id that names an execution
      is resolved as one; an id that names neither is not found. */
  lemma ElementResolution(st: Store, ext: Outside, key: Value, depth: int)
    ensures GetDocument(st, Experiment, key).Found? ==>
      ElementScenario(st, ext, key, depth) == FromExperiment(ScenarioByExperiment(st, ext, key, depth))
    ensures (GetDocument(st, Experiment, key).NotFound? && key.Ref? && LiftExecution(st, key).Some?) ==>
      ElementScenario(st, ext, key, depth) == FromExecution(ScenarioOfExecution(st, ext, key, depth))
    ensures (GetDocument(st, Experiment, key).NotFound? && !(key.Ref? && LiftExecution(st, key).Some?)) ==>
      ElementScenario(st, ext, key, depth) == Nowhere && GetScenario(st, ext, key, depth) == NotFound(key)
  {
    Mixin.GetSingleDictResult(st, ext, Experiment, key, 0, NoSource);
    ActivityExecutions.GetSingleDictExecutionResult(st, ext, key, 0, NoSource);
  }

  // ---------------------------------------------------------------------------
  // Writes to the id list

  /** The reply of a step that may stop early, and the store it leaves behind. */
  datatype Outcome = Outcome(reply: Reply<()>, st: Store)

  /** `get_scenario_dict_by_scenario_id` after a scenario lookup: the stored form
      (ids only) of the scenario found. A lookup that found nothing is passed on;
      a re-read that finds nothing makes the source raise. */
  function StoredScenario(st: Store, found: Lookup<Record>): (r: Reply<Record>)
    ensures r.Done? ==> found.Found? && r.value in Docs(st, Scenario) && Field(r.value, ID) == Field(found.value, ID)
    ensures r.Invalid? ==> r.error == Raised
  {
    match found
    case NotFound(k) => Missing(k)
    case Found(s) =>
      match GetDocument(st, Scenario, Field(s, ID))
      case NotFound(_) => Invalid(Raised)
      case Found(d) => Done(d)
  }

  /** The stored scenario `_put_activity_execution_after_element` writes to and the
      slot the new id takes there: 0 when `previous` resolves to an experiment,
      else one past the first occurrence of `previous`. */
  function InsertionPoint(st: Store, ext: Outside, previous: Value): (r: Reply<(Record, nat)>)
    ensures r.Done? ==> r.value.1 <= |Items(Field(r.value.0, ACTIVITY_EXECUTIONS))|
    ensures r.Invalid? ==> r.error == Raised
  {
    var placement := ElementScenario(st, ext, previous, 0);
    if placement.Nowhere? then Missing(previous)
    else match StoredScenario(st, placement.scenario)
      case Missing(k) => Missing(k)
      case Invalid(e) => Invalid(e)
      case Done(d) => SlotIn(d, placement.FromExecution?, previous)
  }

  /** The slot in the stored scenario `d`: one past the first occurrence of
      `previous` when it is an execution, 0 when it is an experiment; the list
      lookup and the insert raise when the id or the list is missing. */
  function SlotIn(d: Record, afterExecution: bool, previous: Value): (r: Reply<(Record, nat)>)
    ensures r.Done? ==> r.value.0 == d && r.value.1 <= |Items(Field(d, ACTIVITY_EXECUTIONS))|
    ensures r.Done? && afterExecution ==> r.value.1 > 0 && Items(Field(d, ACTIVITY_EXECUTIONS))[r.value.1 - 1] == previous
    ensures r.Done? && !afterExecution ==> r.value.1 == 0
    ensures r.Invalid? <==> !r.Done?
    ensures r.Invalid? ==> r.error == Raised
    ensures r.Invalid? <==> (if afterExecution then previous !in Items(Field(d, ACTIVITY_EXECUTIONS)) else !Field(d, ACTIVITY_EXECUTIONS).List?)
  {
    if afterExecution then
      match IndexOf(Items(Field(d, ACTIVITY_EXECUTIONS)), previous)
      case None => Invalid(Raised)
      case Some(k) => Done((d, k + 1))
    else if Field(d, ACTIVITY_EXECUTIONS).List? then Done((d, 0))
    else Invalid(Raised)
  }

  /** `_put_activity_execution_after_element`: `id` inserted at the insertion point
      and the stored scenario rewritten with the new id list; nothing is written
      when the point is not found. */
  function Placed(st: Store, ext: Outside, previous: Value, id: Value): (out: Outcome)
    ensures out.reply.Invalid? ==> out.reply.error == Raised
  {
    match InsertionPoint(st, ext, previous)
    case Missing(k) => Outcome(Missing(k), st)
    case Invalid(e) => Outcome(Invalid(e), st)
    case Done(at) =>
      var ids := Items(Field(at.0, ACTIVITY_EXECUTIONS));
      Outcome(Done(()), Replaced(st, Scenario, Field(at.0, ID), at.0[ACTIVITY_EXECUTIONS := List(InsertAt(ids, at.1, id))]))
  }

  /** The scenario part of `delete_activity_execution`: the first occurrence of `id`
      taken out of the first scenario listing it (read at depth 0) and that scenario
      rewritten with the new id list; nothing is written when no scenario lists it. */
  function Unlinked(st: Store, ext: Outside, id: Value): (out: Outcome)
    ensures out.reply.Invalid? ==> out.reply.error == Raised
  {
    match StoredScenario(st, ScenarioOfExecution(st, ext, id, 0))
    case Missing(k) => Outcome(Missing(k), st)
    case Invalid(e) => Outcome(Invalid(e), st)
    case Done(d) =>
      match RemoveValue(Items(Field(d, ACTIVITY_EXECUTIONS)), id)
      case None => Outcome(Invalid(Raised), st)
      case Some(rest) => Outcome(Done(()), Replaced(st, Scenario, Field(d, ID), d[ACTIVITY_EXECUTIONS := List(rest)]))
  }

  /** `change_order`: a self-reference is rejected; otherwise the removal, then the
      insertion after `previous`. Success is reported whatever the two steps found;
      only a step that raises stops it. */
  function Reordered(st: Store, ext: Outside, ae: Value, previous: Value): Outcome {
    if ae == previous then Outcome(Invalid(IdenticalIds), st)
    else
      var removed := Unlinked(st, ext, ae);
      if removed.reply.Invalid? then removed
      else
        var placed := Placed(removed.st, ext, previous, ae);
        if placed.reply.Invalid? then placed else Outcome(Done(()), placed.st)
  }

  /** The stored form of a scenario found through a lookup of this collection, in a
      collection without duplicate ids, is that very scenario. */
  lemma StoredHydrated(st: Store, ext: Outside, i: nat, depth: int)
    requires UniqueIds(Docs(st, Scenario)) && i < |Docs(st, Scenario)|
    ensures StoredScenario(st, Found(Hydrate(st, ext, Docs(st, Scenario)[i], depth))) == Done(Docs(st, Scenario)[i])
  {
    HydrateKeepsId(st, ext, Docs(st, Scenario)[i], depth);
    FindUnique(Docs(st, Scenario), i);
  }

  /** An element that is neither an experiment nor an execution: not found, and nothing written. */
  lemma PlacedNowhere(st: Store, ext: Outside, previous: Value, id: Value)
    requires GetDocument(st, Experiment, previous).NotFound?
    requires !(previous.Ref? && LiftExecution(st, previous).Some?)
    ensures Placed(st, ext, previous, id) == Outcome(Missing(previous), st)
  {
    ElementResolution(st, ext, previous, 0);
  }

  /** After an experiment, the id goes first in the first scenario starting at that
      experiment: `[id] + ids`; the rest of the list keeps its order. */
  lemma PlacedAfterExperiment(st: Store, ext: Outside, previous: Value, id: Value, i: nat)
    requires UniqueIds(Docs(st, Scenario))
    requires GetDocument(st, Experiment, previous).Found?
    requires FirstMatch(Docs(st, Scenario), [KeyIs(EXPERIMENT_ID, previous)], i)
    requires Field(Docs(st, Scenario)[i], ACTIVITY_EXECUTIONS).List?
    ensures var s := Docs(st, Scenario)[i];
      var ids := Items(Field(s, ACTIVITY_EXECUTIONS));
      Placed(st, ext, previous, id)
      == Outcome(Done(()), Replaced(st, Scenario, Field(s, ID), s[ACTIVITY_EXECUTIONS := List([id] + ids)]))
  {
    var s := Docs(st, Scenario)[i];
    var ids := Items(Field(s, ACTIVITY_EXECUTIONS));
    InsertionAfterExperiment(st, ext, previous, i);
    PlacedAt(st, ext, previous, id, s, 0);
    assert InsertAt(ids, 0, id) == [id] + ids;
  }

  /** `Placed` at a known insertion point. */
  lemma PlacedAt(st: Store, ext: Outside, previous: Value, id: Value, s: Record, slot: nat)
    requires InsertionPoint(st, ext, previous) == Done((s, slot))
    ensures slot <= |Items(Field(s, ACTIVITY_EXECUTIONS))|
    ensures Placed(st, ext, previous, id)
      == Outcome(Done(()), Replaced(st, Scenario, Field(s, ID), s[ACTIVITY_EXECUTIONS := List(InsertAt(Items(Field(s, ACTIVITY_EXECUTIONS)), slot, id))]))
  {
  }

  lemma InsertionAfterExperiment(st: Store, ext: Outside, previous: Value, i: nat)
    requires UniqueIds(Docs(st, Scenario))
    requires GetDocument(st, Experiment, previous).Found?
    requires FirstMatch(Docs(st, Scenario), [KeyIs(EXPERIMENT_ID, previous)], i)
    requires Field(Docs(st, Scenario)[i], ACTIVITY_EXECUTIONS).List?
    ensures InsertionPoint(st, ext, previous) == Done((Docs(st, Scenario)[i], 0))
  {
    ElementResolution(st, ext, previous, 0);
    ScenarioByExperimentResult(st, ext, previous, 0);
    StoredHydrated(st, ext, i, 0);
  }

  /** After an execution, the id goes right after the first occurrence of that
      execution in the first scenario listing it: `ids[..k + 1] + [id] + ids[k + 1..]`. */
  lemma PlacedAfterExecution(st: Store, ext: Outside, previous: Value, id: Value, i: nat, k: nat)
    requires UniqueIds(Docs(st, Scenario))
    requires GetDocument(st, Experiment, previous).NotFound?
    requires previous.Ref? && LiftExecution(st, previous).Some?
    requires FirstMatch(Docs(st, Scenario), [KeyIs(ACTIVITY_EXECUTIONS, previous)], i)
    requires IndexOf(Items(Field(Docs(st, Scenario)[i], ACTIVITY_EXECUTIONS)), previous) == Some(k)
    ensures var s := Docs(st, Scenario)[i];
      var ids := Items(Field(s, ACTIVITY_EXECUTIONS));
      Placed(st, ext, previous, id)
      == Outcome(Done(()), Replaced(st, Scenario, Field(s, ID), s[ACTIVITY_EXECUTIONS := List(ids[..k + 1] + [id] + ids[k + 1..])]))
  {
    InsertionAfterExecution(st, ext, previous, i, k);
    PlacedAt(st, ext, previous, id, Docs(st, Scenario)[i], k + 1);
  }

  lemma InsertionAfterExecution(st: Store, ext: Outside, previous: Value, i: nat, k: nat)
    requires UniqueIds(Docs(st, Scenario))
    requires GetDocument(st, Experiment, previous).NotFound?
    requires previous.Ref? && LiftExecution(st, previous).Some?
    requires FirstMatch(Docs(st, Scenario), [KeyIs(ACTIVITY_EXECUTIONS, previous)], i)
    requires IndexOf(Items(Field(Docs(st, Scenario)[i], ACTIVITY_EXECUTIONS)), previous) == Some(k)
    ensures InsertionPoint(st, ext, previous) == Done((Docs(st, Scenario)[i], (k + 1) as nat))
  {
    var s := Docs(st, Scenario)[i];
    var found := Found(Hydrate(st, ext, s, 0));
    ResolvedAsExecution(st, ext, previous, i);
    StoredHydrated(st, ext, i, 0);
    assert StoredScenario(st, found) == Done(s);
    assert SlotIn(s, true, previous) == Done((s, (k + 1) as nat));
  }

  lemma ResolvedAsExecution(st: Store, ext: Outside, previous: Value, i: nat)
    requires GetDocument(st, Experiment, previous).NotFound?
    requires previous.Ref? && LiftExecution(st, previous).Some?
    requires FirstMatch(Docs(st, Scenario), [KeyIs(ACTIVITY_EXECUTIONS, previous)], i)
    ensures ElementScenario(st, ext, previous, 0) == FromExecution(Found(Hydrate(st, ext, Docs(st, Scenario)[i], 0)))
  {
    ElementResolution(st, ext, previous, 0);
    ScenarioOfExecutionResult(st, ext, previous, 0);
  }

  /** An execution no scenario lists: not found, and nothing written. */
  lemma UnlinkedNowhere(st: Store, ext: Outside, id: Value)
    requires forall i :: 0 <= i < |Docs(st, Scenario)| ==> !Satisfies(Field(Docs(st, Scenario)[i], ACTIVITY_EXECUTIONS), Is(id))
    ensures Unlinked(st, ext, id) == Outcome(Missing(id), st)
  {
    ScenarioOfExecutionResult(st, ext, id, 0);
  }

  /** The first scenario listing the execution loses the first occurrence of its id;
      the other ids keep their order, and only the id list of that scenario changes. */
  lemma UnlinkedFirst(st: Store, ext: Outside, id: Value, i: nat)
    requires UniqueIds(Docs(st, Scenario))
    requires FirstMatch(Docs(st, Scenario), [KeyIs(ACTIVITY_EXECUTIONS, id)], i)
    requires id in Items(Field(Docs(st, Scenario)[i], ACTIVITY_EXECUTIONS))
    ensures var s := Docs(st, Scenario)[i];
      var ids := Items(Field(s, ACTIVITY_EXECUTIONS));
      var k := IndexOf(ids, id).value;
      Unlinked(st, ext, id)
      == Outcome(Done(()), Replaced(st, Scenario, Field(s, ID), s[ACTIVITY_EXECUTIONS := List(ids[..k] + ids[k + 1..])]))
  {
    ScenarioOfExecutionResult(st, ext, id, 0);
    StoredHydrated(st, ext, i, 0);
  }

  /** A self-reference is an error and touches nothing; no other request gets that error. */
  lemma ReorderedSelfReference(st: Store, ext: Outside, ae: Value, previous: Value)
    ensures Reordered(st, ext, ae, previous).reply == Invalid(IdenticalIds) <==> ae == previous
    ensures ae == previous ==> Reordered(st, ext, ae, previous).st == st
  {
  }

  /** The store after the removal step of an order change: only the scenario at `i`
      changed, to the id list without `ae`; the ids, experiments and activities are
      as before. */
  lemma AfterUnlink(st: Store, ext: Outside, ae: Value, i: nat)
    requires UniqueIds(Docs(st, Scenario))
    requires FirstMatch(Docs(st, Scenario), [KeyIs(ACTIVITY_EXECUTIONS, ae)], i)
    requires ae in Items(Field(Docs(st, Scenario)[i], ACTIVITY_EXECUTIONS))
    ensures var rs := Docs(st, Scenario);
      var s := rs[i];
      var removed := RemoveValue(Items(Field(s, ACTIVITY_EXECUTIONS)), ae).value;
      var r1 := s[ACTIVITY_EXECUTIONS := List(removed)];
      var st1 := Replaced(st, Scenario, Field(s, ID), r1);
      Unlinked(st, ext, ae) == Outcome(Done(()), st1)
      && Docs(st1, Scenario) == rs[i := r1[ID := Field(s, ID)]]
      && UniqueIds(Docs(st1, Scenario))
      && Docs(st1, Experiment) == Docs(st, Experiment)
      && Docs(st1, Activity) == Docs(st, Activity)
  {
    var rs := Docs(st, Scenario);
    var s := rs[i];
    var removed := RemoveValue(Items(Field(s, ACTIVITY_EXECUTIONS)), ae).value;
    var r1 := s[ACTIVITY_EXECUTIONS := List(removed)];
    UnlinkedFirst(st, ext, ae, i);
    ReplaceFirstAt(rs, i, r1);
    ReplaceFirstKeepsIds(rs, Field(s, ID), r1);
    ReplacedElsewhere(st, Scenario, Field(s, ID), r1, Experiment);
    ReplacedElsewhere(st, Scenario, Field(s, ID), r1, Activity);
  }

  /** Replacing a scenario twice leaves the second version, whatever id it carries. */
  lemma ReplacedTwice(st: Store, i: nat, r1: Record, r2: Record)
    requires UniqueIds(Docs(st, Scenario)) && i < |Docs(st, Scenario)|
    ensures var key := Field(Docs(st, Scenario)[i], ID);
      Replaced(Replaced(st, Scenario, key, r1), Scenario, key, r2[ID := key]) == Replaced(st, Scenario, key, r2)
  {
    var rs := Docs(st, Scenario);
    var key := Field(rs[i], ID);
    FindUnique(rs, i);
    ReplaceFirstTwice(rs, key, r1, r2[ID := key]);
    ReplaceFirstSetsId(rs, key, r2);
  }

  /** Moving an execution after another one listed in the same scenario: the
      scenario's id list becomes the list without `ae`, with `ae` put back right
      after `previous` (so `ae` directly follows `previous` and no id is lost or
      added, see `MoveAfter`); nothing else is written. */
  lemma ReorderedWithinScenario(st: Store, ext: Outside, ae: Value, previous: Value, i: nat)
    requires ae != previous
    requires UniqueIds(Docs(st, Scenario))
    requires FirstMatch(Docs(st, Scenario), [KeyIs(ACTIVITY_EXECUTIONS, ae)], i)
    requires FirstMatch(Docs(st, Scenario), [KeyIs(ACTIVITY_EXECUTIONS, previous)], i)
    requires ae in Items(Field(Docs(st, Scenario)[i], ACTIVITY_EXECUTIONS))
    requires previous in Items(Field(Docs(st, Scenario)[i], ACTIVITY_EXECUTIONS))
    requires GetDocument(st, Experiment, previous).NotFound?
    requires previous.Ref? && LiftExecution(st, previous).Some?
    ensures IndexOf(RemoveValue(Items(Field(Docs(st, Scenario)[i], ACTIVITY_EXECUTIONS)), ae).value, previous).Some?
    ensures var s := Docs(st, Scenario)[i];
      var removed := RemoveValue(Items(Field(s, ACTIVITY_EXECUTIONS)), ae).value;
      var k := IndexOf(removed, previous).value;
      Reordered(st, ext, ae, previous)
      == Outcome(Done(()), Replaced(st, Scenario, Field(s, ID), s[ACTIVITY_EXECUTIONS := List(InsertAt(removed, k + 1, ae))]))
  {
    var rs := Docs(st, Scenario);
    var s := rs[i];
    var sid := Field(s, ID);
    var removed := RemoveValue(Items(Field(s, ACTIVITY_EXECUTIONS)), ae).value;
    MoveAfter(Items(Field(s, ACTIVITY_EXECUTIONS)), ae, previous);
    var k := IndexOf(removed, previous).value;
    var r1 := s[ACTIVITY_EXECUTIONS := List(removed)];
    var st1 := Replaced(st, Scenario, sid, r1);
    var moved := removed[..k + 1] + [ae] + removed[k + 1..];
    var st2 := Replaced(st, Scenario, sid, s[ACTIVITY_EXECUTIONS := List(InsertAt(removed, k + 1, ae))]);
    AfterUnlink(st, ext, ae, i);
    PlacedAfterUnlink(st, st1, ext, ae, previous, i, removed, k);
    SecondReplacement(st, i, removed, moved);
    assert moved == InsertAt(removed, k + 1, ae);
    ReorderedSteps(st, ext, ae, previous, st1, st2);
  }

  /** Helper: writing the scenario at `i` with the id list `ids`, then with the id
      list `moved`, leaves the second version. */
  lemma SecondReplacement(st: Store, i: nat, ids: seq<Value>, moved: seq<Value>)
    requires UniqueIds(Docs(st, Scenario)) && i < |Docs(st, Scenario)|
    ensures var s := Docs(st, Scenario)[i];
      var sid := Field(s, ID);
      Replaced(Replaced(st, Scenario, sid, s[ACTIVITY_EXECUTIONS := List(ids)]), Scenario, sid,
               s[ACTIVITY_EXECUTIONS := List(ids)][ID := sid][ACTIVITY_EXECUTIONS := List(moved)])
      == Replaced(st, Scenario, sid, s[ACTIVITY_EXECUTIONS := List(moved)])
  {
    var s := Docs(st, Scenario)[i];
    var sid := Field(s, ID);
    assert s[ACTIVITY_EXECUTIONS := List(ids)][ID := sid][ACTIVITY_EXECUTIONS := List(moved)]
        == s[ACTIVITY_EXECUTIONS := List(moved)][ID := sid];
    ReplacedTwice(st, i, s[ACTIVITY_EXECUTIONS := List(ids)], s[ACTIVITY_EXECUTIONS := List(moved)]);
  }

  /** Helper: the insertion step of `ReorderedWithinScenario`, in a store `st1` whose
      scenario at `i` lists `removed` and is otherwise the one of `st`. */
  lemma PlacedAfterUnlink(st: Store, st1: Store, ext: Outside, ae: Value, previous: Value, i: nat, removed: seq<Value>, k: nat)
    requires i < |Docs(st, Scenario)|
    requires FirstMatch(Docs(st, Scenario), [KeyIs(ACTIVITY_EXECUTIONS, previous)], i)
    requires IndexOf(removed, previous) == Some(k)
    requires GetDocument(st, Experiment, previous).NotFound?
    requires previous.Ref? && LiftExecution(st, previous).Some?
    requires var s := Docs(st, Scenario)[i];
      Docs(st1, Scenario) == Docs(st, Scenario)[i := s[ACTIVITY_EXECUTIONS := List(removed)][ID := Field(s, ID)]]
    requires UniqueIds(Docs(st1, Scenario))
    requires Docs(st1, Experiment) == Docs(st, Experiment) && Docs(st1, Activity) == Docs(st, Activity)
    ensures var s := Docs(st, Scenario)[i];
      var sid := Field(s, ID);
      Placed(st1, ext, previous, ae)
      == Outcome(Done(()), Replaced(st1, Scenario, sid,
           s[ACTIVITY_EXECUTIONS := List(removed)][ID := sid][ACTIVITY_EXECUTIONS := List(removed[..k + 1] + [ae] + removed[k + 1..])]))
  {
    var s := Docs(st, Scenario)[i];
    var sid := Field(s, ID);
    StillListedFirst(Docs(st, Scenario), i, removed, previous);
    assert Field(Docs(st1, Scenario)[i], ID) == sid;
    PlacedInChangedStore(st, st1, ext, ae, previous, i, removed, k);
  }

  /** Helper: the insertion step in a store whose scenario at `i` lists `removed`,
      with the experiments and activities of `st`. */
  lemma PlacedInChangedStore(st: Store, st1: Store, ext: Outside, ae: Value, previous: Value, i: nat, removed: seq<Value>, k: nat)
    requires UniqueIds(Docs(st1, Scenario)) && i < |Docs(st1, Scenario)|
    requires Docs(st1, Experiment) == Docs(st, Experiment) && Docs(st1, Activity) == Docs(st, Activity)
    requires GetDocument(st, Experiment, previous).NotFound?
    requires previous.Ref? && LiftExecution(st, previous).Some?
    requires FirstMatch(Docs(st1, Scenario), [KeyIs(ACTIVITY_EXECUTIONS, previous)], i)
    requires Field(Docs(st1, Scenario)[i], ACTIVITY_EXECUTIONS) == List(removed)
    requires IndexOf(removed, previous) == Some(k)
    ensures var s1 := Docs(st1, Scenario)[i];
      Placed(st1, ext, previous, ae)
      == Outcome(Done(()), Replaced(st1, Scenario, Field(s1, ID), s1[ACTIVITY_EXECUTIONS := List(removed[..k + 1] + [ae] + removed[k + 1..])]))
  {
    ExecutionReadSeesActivities(st, st1, ext, previous);
    PlacedAfterExecution(st1, ext, previous, ae, i, k);
  }

  /** Helper: an id the scenario at `i` lists first keeps being listed first there
      once that scenario's list is replaced by another list holding the id. */
  lemma StillListedFirst(rs: seq<Record>, i: nat, ids: seq<Value>, previous: Value)
    requires FirstMatch(rs, [KeyIs(ACTIVITY_EXECUTIONS, previous)], i)
    requires previous in ids
    ensures var s := rs[i];
      FirstMatch(rs[i := s[ACTIVITY_EXECUTIONS := List(ids)][ID := Field(s, ID)]], [KeyIs(ACTIVITY_EXECUTIONS, previous)], i)
  {
    var s := rs[i];
    var rs1 := rs[i := s[ACTIVITY_EXECUTIONS := List(ids)][ID := Field(s, ID)]];
    forall j | 0 <= j < i ensures !Matches(rs1[j], [KeyIs(ACTIVITY_EXECUTIONS, previous)]) {
      assert rs1[j] == rs[j];
    }
    assert Field(rs1[i], ACTIVITY_EXECUTIONS) == List(ids);
    KeyIsMatches(rs1[i], ACTIVITY_EXECUTIONS, previous);
  }

  /** Helper: an order change whose two steps both succeed reports success and leaves
      the store of the second step. */
  lemma ReorderedSteps(st: Store, ext: Outside, ae: Value, previous: Value, st1: Store, st2: Store)
    requires ae != previous
    requires Unlinked(st, ext, ae) == Outcome(Done(()), st1)
    requires Placed(st1, ext, previous, ae) == Outcome(Done(()), st2)
    ensures Reordered(st, ext, ae, previous) == Outcome(Done(()), st2)
  {
  }

  /** The removal and the insertion are not one step: when `previous` resolves to
      nothing, the execution is taken out of its scenario, put nowhere, and success
      is still reported. */
  lemma ReorderedDetaches(st: Store, ext: Outside, ae: Value, previous: Value, i: nat)
    requires ae != previous
    requires UniqueIds(Docs(st, Scenario))
    requires FirstMatch(Docs(st, Scenario), [KeyIs(ACTIVITY_EXECUTIONS, ae)], i)
    requires ae in Items(Field(Docs(st, Scenario)[i], ACTIVITY_EXECUTIONS))
    requires GetDocument(st, Experiment, previous).NotFound?
    requires !(previous.Ref? && LiftExecution(st, previous).Some?)
    ensures var s := Docs(st, Scenario)[i];
      var ids := Items(Field(s, ACTIVITY_EXECUTIONS));
      var k := IndexOf(ids, ae).value;
      Reordered(st, ext, ae, previous)
      == Outcome(Done(()), Replaced(st, Scenario, Field(s, ID), s[ACTIVITY_EXECUTIONS := List(ids[..k] + ids[k + 1..])]))
  {
    var s := Docs(st, Scenario)[i];
    var removed := RemoveValue(Items(Field(s, ACTIVITY_EXECUTIONS)), ae).value;
    var st1 := Replaced(st, Scenario, Field(s, ID), s[ACTIVITY_EXECUTIONS := List(removed)]);
    AfterUnlink(st, ext, ae, i);
    ExecutionReadSeesActivities(st, st1, ext, previous);
    PlacedNowhere(st1, ext, previous, ae);
  }

  /** Helper: the lookups of `previous` agree in two stores with the same experiments and activities. */
  lemma ExecutionReadSeesActivities(st: Store, st1: Store, ext: Outside, previous: Value)
    requires Docs(st1, Experiment) == Docs(st, Experiment)
    requires Docs(st1, Activity) == Docs(st, Activity)
    ensures GetDocument(st1, Experiment, previous) == GetDocument(st, Experiment, previous)
    ensures LiftExecution(st1, previous) == LiftExecution(st, previous)
  {
    ActivityExecutions.ExecutionReadSeesActivitiesOnly(st, st1, ext, previous, NoSource);
  }

  // ---------------------------------------------------------------------------
  // The service's write methods

  /** The reading half of `_put_activity_execution_after_element`: resolve the
      element, fetch the stored scenario and find the slot, as `InsertionPoint`
      describes it. */
  method LocateInsertion(st: Store, ext: Outside, previous: Value) returns (r: Reply<(Record, nat)>)
    ensures r == InsertionPoint(st, ext, previous)
  {
    var placement := ElementScenario(st, ext, previous, 0);
    if placement.Nowhere? {
      return Missing(previous);
    }
    var stored := StoredScenario(st, placement.scenario);
    if stored.Missing? {
      return Missing(stored.key);
    }
    if stored.Invalid? {
      return Invalid(stored.error);
    }
    return SlotIn(stored.value, placement.FromExecution?, previous);
  }

  /** `_put_activity_execution_after_element`, as `Placed` describes it. */
  method PutAfter(db: Gateway, ext: Outside, previous: Value, id: Value) returns (out: Reply<()>)
    requires db.Valid()
    modifies db
    ensures db.Valid() && db.nextId == old(db.nextId)
    ensures Outcome(out, db.docs) == Placed(old(db.docs), ext, previous, id)
  {
    var point := LocateInsertion(db.docs, ext, previous);
    match point
    case Missing(k) => out := Missing(k);
    case Invalid(e) => out := Invalid(e);
    case Done(at) =>
      var d := at.0;
      db.UpdateDocument(Scenario, Field(d, ID), d[ACTIVITY_EXECUTIONS := List(InsertAt(Items(Field(d, ACTIVITY_EXECUTIONS)), at.1, id))]);
      out := Done(());
  }

  /** A read result as a reply. */
  function AsReply(l: Lookup<Record>): Reply<Record> {
    match l
    case Found(r) => Done(r)
    case NotFound(k) => Missing(k)
  }

  /** `delete_activity_execution`: the scenario part as `Unlinked` describes it; once
      the id is taken out, the execution is read back (it still exists, only its
      place in the scenario is gone). */
  method DeleteActivityExecution(db: Gateway, ext: Outside, id: Value) returns (out: Reply<Record>)
    requires db.Valid()
    modifies db
    ensures db.Valid() && db.nextId == old(db.nextId)
    ensures db.docs == Unlinked(old(db.docs), ext, id).st
    ensures Unlinked(old(db.docs), ext, id).reply.Missing? ==> out == Missing(Unlinked(old(db.docs), ext, id).reply.key)
    ensures Unlinked(old(db.docs), ext, id).reply.Invalid? ==> out == Invalid(Raised)
    ensures Unlinked(old(db.docs), ext, id).reply.Done? ==> out == AsReply(GetSingleDictExecution(db.docs, ext, id, 0, NoSource))
  {
    var scenario := ScenarioOfExecution(db.docs, ext, id, 0);
    var stored := StoredScenario(db.docs, scenario);
    if stored.Missing? {
      return Missing(stored.key);
    }
    if stored.Invalid? {
      return Invalid(Raised);
    }
    var d := stored.value;
    var rest := RemoveValue(Items(Field(d, ACTIVITY_EXECUTIONS)), id);
    if rest.None? {
      return Invalid(Raised);
    }
    db.UpdateDocument(Scenario, Field(d, ID), d[ACTIVITY_EXECUTIONS := List(rest.value)]);
    out := AsReply(GetSingleDictExecution(db.docs, ext, id, 0, NoSource));
  }

  /** `change_order`, as `Reordered` describes it. */
  method ChangeOrder(db: Gateway, ext: Outside, ae: Value, previous: Value) returns (out: Reply<()>)
    requires db.Valid()
    modifies db
    ensures db.Valid() && db.nextId == old(db.nextId)
    ensures Outcome(out, db.docs) == Reordered(old(db.docs), ext, ae, previous)
  {
    if ae == previous {
      return Invalid(IdenticalIds);
    }
    var removed := DeleteActivityExecution(db, ext, ae);
    if removed.Invalid? {
      return Invalid(Raised);
    }
    var placed := PutAfter(db, ext, previous, ae);
    if placed.Invalid? {
      return placed;
    }
    out := Done(());
  }

  /** The id the service reads off a save result: a failed save answers with an
      error object whose id is null. */
  function SavedId(saved: Reply<Record>): (id: Value)
    ensures saved.Done? ==> id == Field(saved.value, ID)
    ensures !saved.Done? ==> id == Null
  {
    if saved.Done? then Field(saved.value, ID) else Null
  }

  /** `add_activity_execution` as written: the execution is saved, and whatever the
      save answered, the id read off its answer is put after `previous`. */
  method AddActivityExecution(db: Gateway, ext: Outside, previous: Value, ae: Record) returns (out: Reply<Record>, ghost saved: Store)
    requires db.Valid()
    modifies db
    ensures db.Valid()
    ensures ActivityExecutions.Saved(old(db.docs), old(db.nextId), ae, saved, out)
    ensures db.docs == Placed(saved, ext, previous, SavedId(out)).st
  {
    out := ActivityExecutions.Save(db, ext, ae);
    saved := db.docs;
    var placed := PutAfter(db, ext, previous, SavedId(out));
  }

  /** A save that fails leaves the store as it was, and the null id of its answer is
      then listed first in the scenario of the experiment given as `previous`. */
  lemma FailedSavePlacesNull(st: Store, ext: Outside, n: Id, ae: Record, saved: Store, out: Reply<Record>, previous: Value, i: nat)
    requires ActivityExecutions.Saved(st, n, ae, saved, out) && !out.Done?
    requires UniqueIds(Docs(st, Scenario))
    requires GetDocument(st, Experiment, previous).Found?
    requires FirstMatch(Docs(st, Scenario), [KeyIs(EXPERIMENT_ID, previous)], i)
    requires Field(Docs(st, Scenario)[i], ACTIVITY_EXECUTIONS).List?
    ensures saved == st
    ensures var s := Docs(st, Scenario)[i];
      Placed(saved, ext, previous, SavedId(out))
      == Outcome(Done(()), Replaced(st, Scenario, Field(s, ID), s[ACTIVITY_EXECUTIONS := List([Null] + Items(Field(s, ACTIVITY_EXECUTIONS)))]))
  {
    PlacedAfterExperiment(st, ext, previous, Null, i);
  }

  /** `add_activity_execution` as evidently intended: a failed save is answered as it
      is and nothing is put into a scenario; only a saved execution, which always
      has an id, is placed. */
  method AddActivityExecutionChecked(db: Gateway, ext: Outside, previous: Value, ae: Record) returns (out: Reply<Record>, ghost saved: Store)
    requires db.Valid()
    modifies db
    ensures db.Valid()
    ensures ActivityExecutions.Saved(old(db.docs), old(db.nextId), ae, saved, out)
    ensures !out.Done? ==> db.docs == saved == old(db.docs)
    ensures out.Done? ==> Field(out.value, ID) == Ref(old(db.nextId)) && db.docs == Placed(saved, ext, previous, Field(out.value, ID)).st
  {
    out := ActivityExecutions.Save(db, ext, ae);
    saved := db.docs;
    if out.Done? {
      var placed := PutAfter(db, ext, previous, Field(out.value, ID));
    }
  }

  /** The experiment check of `save_scenario`: no experiment id given, or one that exists. */
  predicate ExperimentGiven(st: Store, scenario: Record) {
    Field(scenario, EXPERIMENT_ID) == Null || GetDocument(st, Experiment, Field(scenario, EXPERIMENT_ID)).Found?
  }

  /** The ids read off a sequence of save results, one for one. */
  function IdsOf(saves: seq<Reply<Record>>): (ids: seq<Value>)
    ensures |ids| == |saves|
    ensures forall j :: 0 <= j < |saves| ==> ids[j] == SavedId(saves[j])
  {
    seq(|saves|, j requires 0 <= j < |saves| => SavedId(saves[j]))
  }

  /** `save_scenario`: a given experiment id that names no experiment is an error and
      nothing is written; otherwise every execution is saved in turn (`trace` holds
      the store and the id counter before each save and after the last), and the
      scenario is created with the ids read off those saves. The answer is the
      scenario as given, with the save results as its executions; the id of the
      created scenario is not part of it. */
  method SaveScenario(db: Gateway, ext: Outside, scenario: Record, executions: seq<Record>)
    returns (out: Reply<(Record, seq<Reply<Record>>)>, ghost trace: seq<(Store, Id)>)
    requires db.Valid()
    modifies db
    ensures db.Valid()
    ensures out.Invalid? <==> !ExperimentGiven(old(db.docs), scenario)
    ensures out.Invalid? ==> out.error == ExperimentMissing && db.docs == old(db.docs)
    ensures !out.Missing?
    ensures out.Done? ==>
      var saves := out.value.1;
      out.value.0 == scenario
      && |saves| == |executions| && |trace| == |executions| + 1
      && trace[0] == (old(db.docs), old(db.nextId))
      && (forall j :: 0 <= j < |executions| ==> ActivityExecutions.Saved(trace[j].0, trace[j].1, executions[j], trace[j + 1].0, saves[j]))
      && db.nextId == trace[|executions|].1 + 1
      && db.docs == trace[|executions|].0[Scenario := Docs(old(db.docs), Scenario)
           + [scenario[ACTIVITY_EXECUTIONS := List(IdsOf(saves))][ID := Ref(trace[|executions|].1)]]]
  {
    var experimentId := Field(scenario, EXPERIMENT_ID);
    var experiment := GetSingleDict(db.docs, ext, Experiment, experimentId, 0, NoSource);
    Mixin.GetSingleDictResult(db.docs, ext, Experiment, experimentId, 0, NoSource);
    if experimentId != Null && experiment.NotFound? {
      trace := [];
      return Invalid(ExperimentMissing), trace;
    }
    var saves: seq<Reply<Record>> := [];
    trace := [(db.docs, db.nextId)];
    var j := 0;
    while j < |executions|
      invariant 0 <= j <= |executions|
      invariant db.Valid()
      invariant |saves| == j && |trace| == j + 1
      invariant trace[0] == (old(db.docs), old(db.nextId))
      invariant trace[j] == (db.docs, db.nextId)
      invariant forall k :: 0 <= k < j ==> ActivityExecutions.Saved(trace[k].0, trace[k].1, executions[k], trace[k + 1].0, saves[k])
      invariant Docs(db.docs, Scenario) == Docs(old(db.docs), Scenario)
    {
      var saved := ActivityExecutions.Save(db, ext, executions[j]);
      saves := saves + [saved];
      trace := trace + [(db.docs, db.nextId)];
      j := j + 1;
    }
    var created := db.CreateDocument(Scenario, scenario[ACTIVITY_EXECUTIONS := List(IdsOf(saves))]);
    out := Done((scenario, saves));
  }

  /** `_check_activity_executions`: the number of executions an "id is one of" read
      finds equals the number of ids given. */
  function CheckActivityExecutions(st: Store, ext: Outside, ids: seq<Value>): (ok: bool)
    ensures var q := [Term([ID], In(ids))];
      ok <==> |ActivityExecutions.EmbeddedExecutions(GetDocuments(st, Activity, Rewrite(q, ACTIVITY_EXECUTIONS), ActivityProjection(q)))| == |ids|
  {
    var q := [Term([ID], In(ids))];
    ActivityExecutions.ExecutionsInArrayOrder(st, ext, GetDocuments(st, Activity, Rewrite(q, ACTIVITY_EXECUTIONS), ActivityProjection(q)), 0, NoSource);
    |GetMultipleExecutions(st, ext, q, 0, NoSource)| == |ids|
  }
}
