/** The activity-execution service. Executions are stored inside the documents
    of the activities they belong to, in the array `activity_executions`; reads
    go through the activity collection with a rewritten query and a projection,
    and writes are delegated to the activity service. The activity service is
    not part of this model: its reads are the gateway's, unexpanded, and its
    three writes are stated below as the embedded-array edits they stand for. */
module ActivityExecutions {
  import opened Common
  import opened Storage
  import opened Expansion
  import opened Mixin
  import opened Edits

  // ---------------------------------------------------------------------------
  // Reads

  /** The loop over one activity's array: each execution expanded, in order, with
      `parent` as its activity. */
  method ExpandArray(st: Store, ext: Outside, executions: seq<Value>, depth: int, source: Collection, parent: Record)
    returns (expanded: seq<Record>)
    ensures expanded == ExpandExecutions(st, ext, executions, depth, source, parent)
  {
    expanded := [];
    var j := 0;
    while j < |executions|
      invariant 0 <= j <= |executions|
      invariant |expanded| == j
      invariant forall k :: 0 <= k < j ==> expanded[k] == ExpandExecution(st, ext, AsRecord(executions[k]), depth, source, parent)
    {
      expanded := expanded + [ExpandExecution(st, ext, AsRecord(executions[j]), depth, source, parent)];
      j := j + 1;
    }
  }

  /** One step of the loop over activities: the executions of the activity at
      `i`, then those of the rest. */
  lemma ExecutionsOfActivitiesStep(st: Store, ext: Outside, activities: seq<Record>, i: nat, depth: int, source: Collection,
                                   done: seq<Record>, own: seq<Record>)
    requires i < |activities|
    requires done + ExecutionsOfActivities(st, ext, activities[i..], depth, source) == ExecutionsOfActivities(st, ext, activities, depth, source)
    requires own == if ACTIVITY_EXECUTIONS in activities[i]
      then ExpandExecutions(st, ext, Items(activities[i][ACTIVITY_EXECUTIONS]), depth, source, Without(activities[i], ACTIVITY_EXECUTIONS))
      else []
    ensures (done + own) + ExecutionsOfActivities(st, ext, activities[i + 1..], depth, source) == ExecutionsOfActivities(st, ext, activities, depth, source)
  {
    assert activities[i..][0] == activities[i];
    assert activities[i..][1..] == activities[i + 1..];
    ghost var rest := ExecutionsOfActivities(st, ext, activities[i + 1..], depth, source);
    assert ExecutionsOfActivities(st, ext, activities[i..], depth, source) == own + rest;
    assert done + (own + rest) == (done + own) + rest;
  }

  /** The loop over the fetched activities: for each one that still has its
      array, its executions expanded with the activity (array removed) as parent,
      added to the result in order. */
  method ExecutionsOf(st: Store, ext: Outside, activities: seq<Record>, depth: int, source: Collection)
    returns (result: seq<Record>)
    ensures result == ExecutionsOfActivities(st, ext, activities, depth, source)
  {
    result := [];
    var i := 0;
    while i < |activities|
      invariant 0 <= i <= |activities|
      invariant result + ExecutionsOfActivities(st, ext, activities[i..], depth, source)
        == ExecutionsOfActivities(st, ext, activities, depth, source)
    {
      var activity := activities[i];
      var own := [];
      if ACTIVITY_EXECUTIONS in activity {
        own := ExpandArray(st, ext, Items(activity[ACTIVITY_EXECUTIONS]), depth, source, Without(activity, ACTIVITY_EXECUTIONS));
      }
      ExecutionsOfActivitiesStep(st, ext, activities, i, depth, source, result, own);
      result := result + own;
      i := i + 1;
    }
    assert activities[i..] == [];
    assert result + [] == result;
  }

  /** `get_multiple`: the activities holding a matching execution, read with the
      rewritten query and the projection, then their executions. */
  method GetMultiple(db: Gateway, ext: Outside, q: Query, depth: int, source: Collection) returns (result: seq<Record>)
    ensures result == GetMultipleExecutions(db.docs, ext, q, depth, source)
  {
    var st := db.docs;
    var activities := GetDocuments(st, Activity, Rewrite(q, ACTIVITY_EXECUTIONS), ActivityProjection(q));
    result := ExecutionsOf(st, ext, activities, depth, source);
  }

  /** The embedded executions of `activities`, in order; an activity without the
      array contributes none. */
  function EmbeddedExecutions(activities: seq<Record>): seq<Value> {
    if activities == [] then []
    else
      var own := if ACTIVITY_EXECUTIONS in activities[0] then Items(activities[0][ACTIVITY_EXECUTIONS]) else [];
      own + EmbeddedExecutions(activities[1..])
  }

  /** The hook adds related documents and touches no other field of the execution. */
  lemma ExecutionHookKeepsOwnFields(st: Store, ext: Outside, e: Record, depth: int, source: Collection, activity: Record, k: string)
    requires k !in RELATIONS
    ensures k in ExpandExecution(st, ext, e, depth, source, activity) <==> k in e
    ensures k in e ==> ExpandExecution(st, ext, e, depth, source, activity)[k] == e[k]
  {
  }

  /** `get_multiple` returns the concatenation of the matched activities' arrays:
      one result per embedded execution, in order, each with its own id, and at
      depth 0 exactly the embedded documents. */
  lemma {:induction false} ExecutionsInArrayOrder(st: Store, ext: Outside, activities: seq<Record>, depth: int, source: Collection)
    ensures |ExecutionsOfActivities(st, ext, activities, depth, source)| == |EmbeddedExecutions(activities)|
    ensures forall i :: 0 <= i < |EmbeddedExecutions(activities)| ==>
      Field(ExecutionsOfActivities(st, ext, activities, depth, source)[i], ID) == Field(AsRecord(EmbeddedExecutions(activities)[i]), ID)
    ensures depth <= 0 ==> forall i :: 0 <= i < |EmbeddedExecutions(activities)| ==>
      ExecutionsOfActivities(st, ext, activities, depth, source)[i] == AsRecord(EmbeddedExecutions(activities)[i])
  {
    if activities != [] {
      var a := activities[0];
      ExecutionsInArrayOrder(st, ext, activities[1..], depth, source);
      var own := if ACTIVITY_EXECUTIONS in a then Items(a[ACTIVITY_EXECUTIONS]) else [];
      var expanded := if ACTIVITY_EXECUTIONS in a then ExpandExecutions(st, ext, own, depth, source, Without(a, ACTIVITY_EXECUTIONS)) else [];
      OwnExecutionsInOrder(st, ext, a, depth, source);
      assert ExecutionsOfActivities(st, ext, activities, depth, source) == expanded + ExecutionsOfActivities(st, ext, activities[1..], depth, source);
      assert EmbeddedExecutions(activities) == own + EmbeddedExecutions(activities[1..]);
      ConcatenatedInOrder(expanded, ExecutionsOfActivities(st, ext, activities[1..], depth, source), own, EmbeddedExecutions(activities[1..]), depth <= 0);
    }
  }

  lemma OwnExecutionsInOrder(st: Store, ext: Outside, a: Record, depth: int, source: Collection)
    ensures var own := if ACTIVITY_EXECUTIONS in a then Items(a[ACTIVITY_EXECUTIONS]) else [];
      var expanded := if ACTIVITY_EXECUTIONS in a then ExpandExecutions(st, ext, own, depth, source, Without(a, ACTIVITY_EXECUTIONS)) else [];
      |expanded| == |own|
      && forall i :: 0 <= i < |own| ==>
           Field(expanded[i], ID) == Field(AsRecord(own[i]), ID) && (depth <= 0 ==> expanded[i] == AsRecord(own[i]))
  {
    var own := if ACTIVITY_EXECUTIONS in a then Items(a[ACTIVITY_EXECUTIONS]) else [];
    var parent := Without(a, ACTIVITY_EXECUTIONS);
    var expanded := if ACTIVITY_EXECUTIONS in a then ExpandExecutions(st, ext, own, depth, source, parent) else [];
    forall i | 0 <= i < |own|
      ensures Field(expanded[i], ID) == Field(AsRecord(own[i]), ID)
      ensures depth <= 0 ==> expanded[i] == AsRecord(own[i])
    {
      ExecutionHookKeepsOwnFields(st, ext, AsRecord(own[i]), depth, source, parent, ID);
    }
  }

  /** Two results lists that agree with two lists of embedded documents, id for id
      (and document for document when `exact`), still agree once concatenated. */
  lemma ConcatenatedInOrder(a: seq<Record>, b: seq<Record>, x: seq<Value>, y: seq<Value>, exact: bool)
    requires |a| == |x| && |b| == |y|
    requires forall i :: 0 <= i < |x| ==> Field(a[i], ID) == Field(AsRecord(x[i]), ID) && (exact ==> a[i] == AsRecord(x[i]))
    requires forall i :: 0 <= i < |y| ==> Field(b[i], ID) == Field(AsRecord(y[i]), ID) && (exact ==> b[i] == AsRecord(y[i]))
    ensures forall i :: 0 <= i < |x + y| ==> Field((a + b)[i], ID) == Field(AsRecord((x + y)[i]), ID) && (exact ==> (a + b)[i] == AsRecord((x + y)[i]))
  {
    forall i | 0 <= i < |x + y|
      ensures Field((a + b)[i], ID) == Field(AsRecord((x + y)[i]), ID) && (exact ==> (a + b)[i] == AsRecord((x + y)[i]))
    {
      if i >= |x| {
        assert (a + b)[i] == b[i - |x|] && (x + y)[i] == y[i - |x|];
      }
    }
  }

  /** `get_single_dict` / `get_single` with no key: the object id made from
      nothing is a fresh one, which no stored execution has, so not found. */
  lemma NullExecutionKeyNotFound(st: Store, ext: Outside, key: Value, depth: int, source: Collection)
    requires key == Null
    ensures GetSingleDictExecution(st, ext, key, depth, source) == NotFound(key)
  {
  }

  /** No execution embedded in a stored activity has an array as its id. */
  predicate ScalarExecutionIds(st: Store) {
    forall j, i :: 0 <= j < |Docs(st, Activity)| && 0 <= i < |Items(Field(Docs(st, Activity)[j], ACTIVITY_EXECUTIONS))| ==>
      !Field(AsRecord(Items(Field(Docs(st, Activity)[j], ACTIVITY_EXECUTIONS))[i]), ID).List?
  }

  /** An execution the read finds is one the activity service's writes find: its
      id is held, exactly, by a slot of a stored activity (given that no stored
      execution has an array as its id, which a filter would search). */
  lemma FoundExecutionIsHeld(st: Store, ext: Outside, key: Value, depth: int, source: Collection)
    requires ScalarExecutionIds(st)
    requires GetSingleDictExecution(st, ext, key, depth, source).Found?
    ensures FindEmbedded(Docs(st, Activity), ACTIVITY_EXECUTIONS, key).Some?
  {
    var q := [KeyIs(ID, key)];
    var selected := Select(Docs(st, Activity), Rewrite(q, ACTIVITY_EXECUTIONS));
    var a := selected[0];
    var hits := Items(Field(Project(ActivityProjection(q), a), ACTIVITY_EXECUTIONS));
    LiftedMatches(a, key, hits);
    assert ACTIVITY_EXECUTIONS in a;
    var vs := Items(Field(a, ACTIVITY_EXECUTIONS));
    assert hits == MatchingElements(vs, q);
    var i :| 0 <= i < |vs| && vs[i] == hits[0];
    var j :| 0 <= j < |Docs(st, Activity)| && Docs(st, Activity)[j] == a;
    assert Field(AsRecord(vs[i]), ID) == key;
    assert IndexById(Items(Field(Docs(st, Activity)[j], ACTIVITY_EXECUTIONS)), key).Some?;
  }

  /** When no stored activity holds an execution with the id, the read is not found. */
  lemma ExecutionNotHeld(st: Store, ext: Outside, key: Value, depth: int, source: Collection)
    requires forall i :: 0 <= i < |Docs(st, Activity)| ==> !Holds(Docs(st, Activity)[i], Term([ACTIVITY_EXECUTIONS, ID], Is(key)))
    ensures GetSingleDictExecution(st, ext, key, depth, source) == NotFound(key)
  {
    var rs := Docs(st, Activity);
    var rewritten := Rewrite([KeyIs(ID, key)], ACTIVITY_EXECUTIONS);
    assert [ACTIVITY_EXECUTIONS] + [ID] == [ACTIVITY_EXECUTIONS, ID];
    assert rewritten == [Term([ACTIVITY_EXECUTIONS, ID], Is(key))];
    forall i | 0 <= i < |rs| ensures !Matches(rs[i], rewritten) {
      assert !Holds(rs[i], rewritten[0]);
    }
    SelectEmpty(rs, rewritten);
    assert LiftExecution(st, key).None?;
  }

  /** A plain execution read looks at the activities only: two stores with the
      same activities give the same answer. */
  lemma ExecutionReadSeesActivitiesOnly(st1: Store, st2: Store, ext: Outside, key: Value, source: Collection)
    requires Docs(st1, Activity) == Docs(st2, Activity)
    ensures LiftExecution(st1, key) == LiftExecution(st2, key)
    ensures GetSingleDictExecution(st1, ext, key, 0, source) == GetSingleDictExecution(st2, ext, key, 0, source)
  {
  }

  /** A found execution is the lifted one expanded with its detached parent: it
      carries the id asked for, and unless the read came from activities its
      `activity` is the projected activity with the array removed. */
  lemma GetSingleDictExecutionResult(st: Store, ext: Outside, key: Value, depth: int, source: Collection)
    ensures GetSingleDictExecution(st, ext, key, depth, source).Found? <==> key.Ref? && LiftExecution(st, key).Some?
    ensures GetSingleDictExecution(st, ext, key, depth, source).Found? ==>
      Satisfies(Field(GetSingleDictExecution(st, ext, key, depth, source).value, ID), Is(key))
    ensures (GetSingleDictExecution(st, ext, key, depth, source).Found? && depth > 0 && source != Activity) ==>
      var e := GetSingleDictExecution(st, ext, key, depth, source).value;
      "activity" in e && e["activity"] == Obj(LiftExecution(st, key).value.1)
  {
    if key.Ref? && LiftExecution(st, key).Some? {
      var lifted := LiftExecution(st, key).value;
      var e := ExpandExecution(st, ext, lifted.0, depth, source, lifted.1);
      assert GetSingleDictExecution(st, ext, key, depth, source) == Found(e);
      ExecutionHookKeepsOwnFields(st, ext, lifted.0, depth, source, lifted.1, ID);
      assert Field(e, ID) == Field(lifted.0, ID);
      if depth > 0 && source != Activity {
        ExecutionHookAttachesActivity(st, ext, lifted.0, depth, source, lifted.1);
      }
    } else {
      assert GetSingleDictExecution(st, ext, key, depth, source) == NotFound(key);
    }
  }

  /** Unless the read came from activities, the hook attaches the parent it was given. */
  lemma ExecutionHookAttachesActivity(st: Store, ext: Outside, e: Record, depth: int, source: Collection, activity: Record)
    requires depth > 0 && source != Activity
    ensures "activity" in ExpandExecution(st, ext, e, depth, source, activity)
    ensures ExpandExecution(st, ext, e, depth, source, activity)["activity"] == Obj(activity)
  {
  }

  // ---------------------------------------------------------------------------
  // The hook

  /** `_add_related_documents` changes nothing once the depth is used up. */
  lemma ExecutionHookAtDepthZero(st: Store, ext: Outside, e: Record, depth: int, source: Collection, activity: Record)
    requires depth <= 0
    ensures ExpandExecution(st, ext, e, depth, source, activity) == e
  {
  }

  /** Each relation of an execution is suppressed by its own tag only; the child
      reads go out at `depth - 1` tagged as coming from activity executions, the
      scenario lookup keeps the depth, and the activity is the parent already
      fetched, attached without a new read. */
  lemma ExecutionHookRelations(st: Store, ext: Outside, e: Record, depth: int, source: Collection, activity: Record)
    requires depth > 0
    ensures var out := ExpandExecution(st, ext, e, depth, source, activity);
      var arrangementId := Field(e, ARRANGEMENT_ID);
      (if source != Arrangement && arrangementId != Null
       then out["arrangement"] == AsValue(GetSingleDict(st, ext, Arrangement, arrangementId, depth - 1, ActivityExecution))
       else Field(out, "arrangement") == Field(e, "arrangement"))
      && (if source != Experiment && ScenariosOfExecution(st, ext, Field(e, ID), depth).Found?
          then out["experiments"] == List(ExperimentsOf(ScenariosOfExecution(st, ext, Field(e, ID), depth).value))
          else Field(out, "experiments") == Field(e, "experiments"))
      && (if source != Participation
          then out["participations"] == List(Objs(ext(Request(Participation, [KeyIs("activity_execution_id", Field(e, ID))], depth - 1, ActivityExecution))))
          else Field(out, "participations") == Field(e, "participations"))
      && (if source != Activity then out["activity"] == Obj(activity) else Field(out, "activity") == Field(e, "activity"))
  {
    ExecutionHookArrangement(st, ext, e, depth, source, activity);
    ExecutionHookExperiments(st, ext, e, depth, source, activity);
    ExecutionHookParticipations(st, ext, e, depth, source, activity);
    ExecutionHookActivity(st, ext, e, depth, source, activity);
  }

  lemma ExecutionHookActivity(st: Store, ext: Outside, e: Record, depth: int, source: Collection, activity: Record)
    requires depth > 0
    ensures var out := ExpandExecution(st, ext, e, depth, source, activity);
      if source != Activity then out["activity"] == Obj(activity) else Field(out, "activity") == Field(e, "activity")
  {
  }

  lemma ExecutionHookArrangement(st: Store, ext: Outside, e: Record, depth: int, source: Collection, activity: Record)
    requires depth > 0
    ensures var out := ExpandExecution(st, ext, e, depth, source, activity);
      var arrangementId := Field(e, ARRANGEMENT_ID);
      if source != Arrangement && arrangementId != Null
      then out["arrangement"] == AsValue(GetSingleDict(st, ext, Arrangement, arrangementId, depth - 1, ActivityExecution))
      else Field(out, "arrangement") == Field(e, "arrangement")
  {
  }

  lemma ExecutionHookExperiments(st: Store, ext: Outside, e: Record, depth: int, source: Collection, activity: Record)
    requires depth > 0
    ensures var out := ExpandExecution(st, ext, e, depth, source, activity);
      if source != Experiment && ScenariosOfExecution(st, ext, Field(e, ID), depth).Found?
      then out["experiments"] == List(ExperimentsOf(ScenariosOfExecution(st, ext, Field(e, ID), depth).value))
      else Field(out, "experiments") == Field(e, "experiments")
  {
  }

  lemma ExecutionHookParticipations(st: Store, ext: Outside, e: Record, depth: int, source: Collection, activity: Record)
    requires depth > 0
    ensures var out := ExpandExecution(st, ext, e, depth, source, activity);
      if source != Participation
      then out["participations"] == List(Objs(ext(Request(Participation, [KeyIs("activity_execution_id", Field(e, ID))], depth - 1, ActivityExecution))))
      else Field(out, "participations") == Field(e, "participations")
  {
  }

  // ---------------------------------------------------------------------------
  // Writes

  /** The related-activity check: no activity id given, or one that exists. */
  predicate ActivityGiven(st: Store, ae: Record) {
    Field(ae, ACTIVITY_ID) == Null || GetDocument(st, Activity, Field(ae, ACTIVITY_ID)).Found?
  }

  /** The related-arrangement check: no arrangement id given, or one that exists. */
  predicate ArrangementGiven(st: Store, ae: Record) {
    Field(ae, ARRANGEMENT_ID) == Null || GetDocument(st, Arrangement, Field(ae, ARRANGEMENT_ID)).Found?
  }

  /** What the activity service's `add_activity_execution` does: the execution,
      under the fresh id `n`, appended to the array of its activity; an activity id
      that names no activity stores nothing. */
  ghost predicate AddedToActivity(old_st: Store, n: Id, ae: Record, st: Store, out: Reply<Record>) {
    match GetDocument(old_st, Activity, Field(ae, ACTIVITY_ID))
    case NotFound(k) => out == Missing(k) && st == old_st
    case Found(a) =>
      out == Done(ae[ID := Ref(n)])
      && st == Replaced(old_st, Activity, Field(ae, ACTIVITY_ID), Appended(a, ACTIVITY_EXECUTIONS, Obj(ae[ID := Ref(n)])))
  }

  /** What `save_activity_execution` does: a given activity id that names no
      activity is an error, then likewise a given arrangement id, and nothing is
      written after an error; only once both checks pass is the execution handed
      to the activity service. */
  ghost predicate Saved(old_st: Store, n: Id, ae: Record, st: Store, out: Reply<Record>) {
    if !ActivityGiven(old_st, ae) then out == Invalid(ActivityMissing) && st == old_st
    else if !ArrangementGiven(old_st, ae) then out == Invalid(ArrangementMissing) && st == old_st
    else AddedToActivity(old_st, n, ae, st, out)
  }

  /** The activity service's `add_activity_execution`. */
  method AddToActivity(db: Gateway, ae: Record) returns (out: Reply<Record>)
    requires db.Valid()
    modifies db
    ensures db.Valid()
    ensures AddedToActivity(old(db.docs), old(db.nextId), ae, db.docs, out)
    ensures forall c :: c != Activity ==> Docs(db.docs, c) == Docs(old(db.docs), c)
  {
    var activityId := Field(ae, ACTIVITY_ID);
    var activity := GetDocument(db.docs, Activity, activityId);
    if activity.NotFound? {
      return Missing(activityId);
    }
    var id := db.NewId();
    var stored := ae[ID := Ref(id)];
    db.UpdateDocument(Activity, activityId, Appended(activity.value, ACTIVITY_EXECUTIONS, Obj(stored)));
    out := Done(stored);
  }

  /** The store `st` and answer `out` after removing the execution with id `key`
      from `old_st`: when no activity holds one, the not-found marker and nothing
      written; otherwise the first activity holding one loses that slot, and the
      removed execution is the answer. */
  ghost predicate ExecutionRemoved(old_st: Store, key: Value, st: Store, out: Reply<Record>) {
    match FindEmbedded(Docs(old_st, Activity), ACTIVITY_EXECUTIONS, key)
    case None => out == Missing(key) && st == old_st
    case Some(at) =>
      var a := Docs(old_st, Activity)[at.0];
      var executions := Items(Field(a, ACTIVITY_EXECUTIONS));
      out == Done(AsRecord(executions[at.1]))
      && st == Replaced(old_st, Activity, Field(a, ID), a[ACTIVITY_EXECUTIONS := List(DeleteAt(executions, at.1))])
  }

  /** The store `st` and answer `out` after overwriting the execution with id `key`
      in `old_st` by `r`: when no activity holds one, the not-found marker and
      nothing written; otherwise that slot of the first activity holding one is
      `r` with the id kept, and that is the answer. */
  ghost predicate ExecutionReplaced(old_st: Store, key: Value, r: Record, st: Store, out: Reply<Record>) {
    match FindEmbedded(Docs(old_st, Activity), ACTIVITY_EXECUTIONS, key)
    case None => out == Missing(key) && st == old_st
    case Some(at) =>
      var a := Docs(old_st, Activity)[at.0];
      var executions := Items(Field(a, ACTIVITY_EXECUTIONS));
      out == Done(r[ID := key])
      && st == Replaced(old_st, Activity, Field(a, ID), a[ACTIVITY_EXECUTIONS := List(executions[at.1 := Obj(r[ID := key])])])
  }

  /** The activity service's `remove_activity_execution`: the first activity holding
      an execution with id `key` loses that slot; the removed execution is returned. */
  method RemoveFromActivity(db: Gateway, key: Value) returns (out: Reply<Record>)
    requires db.Valid()
    modifies db
    ensures db.Valid() && db.nextId == old(db.nextId)
    ensures ExecutionRemoved(old(db.docs), key, db.docs, out)
  {
    var at := FindEmbedded(Docs(db.docs, Activity), ACTIVITY_EXECUTIONS, key);
    if at.None? {
      return Missing(key);
    }
    var a := Docs(db.docs, Activity)[at.value.0];
    var executions := Items(Field(a, ACTIVITY_EXECUTIONS));
    out := Done(AsRecord(executions[at.value.1]));
    db.UpdateDocument(Activity, Field(a, ID), a[ACTIVITY_EXECUTIONS := List(DeleteAt(executions, at.value.1))]);
  }

  /** The activity service's `update_activity_execution`: the slot holding the
      execution with id `key`, in the first activity holding one, overwritten by `r`
      (keeping the id); the stored execution is returned. */
  method ReplaceInActivity(db: Gateway, key: Value, r: Record) returns (out: Reply<Record>)
    requires db.Valid()
    modifies db
    ensures db.Valid() && db.nextId == old(db.nextId)
    ensures ExecutionReplaced(old(db.docs), key, r, db.docs, out)
  {
    var at := FindEmbedded(Docs(db.docs, Activity), ACTIVITY_EXECUTIONS, key);
    if at.None? {
      return Missing(key);
    }
    var a := Docs(db.docs, Activity)[at.value.0];
    var executions := Items(Field(a, ACTIVITY_EXECUTIONS));
    db.UpdateDocument(Activity, Field(a, ID), a[ACTIVITY_EXECUTIONS := List(executions[at.value.1 := Obj(r[ID := key])])]);
    out := Done(r[ID := key]);
  }

  /** `save_activity_execution`, as `Saved` describes it. */
  method Save(db: Gateway, ext: Outside, ae: Record) returns (out: Reply<Record>)
    requires db.Valid()
    modifies db
    ensures db.Valid()
    ensures Saved(old(db.docs), old(db.nextId), ae, db.docs, out)
    ensures forall c :: c != Activity ==> Docs(db.docs, c) == Docs(old(db.docs), c)
  {
    var activityId := Field(ae, ACTIVITY_ID);
    if activityId != Null && GetDocument(db.docs, Activity, activityId).NotFound? {
      return Invalid(ActivityMissing);
    }
    var arrangementId := Field(ae, ARRANGEMENT_ID);
    var arrangement := GetSingleDict(db.docs, ext, Arrangement, arrangementId, 0, NoSource);
    if arrangementId != Null && arrangement.NotFound? {
      return Invalid(ArrangementMissing);
    }
    out := AddToActivity(db, ae);
  }

  /** `delete_activity_execution`: an id no activity holds gives the not-found
      marker and writes nothing; otherwise the removal is delegated. */
  method Delete(db: Gateway, ext: Outside, key: Value) returns (out: Reply<Record>)
    requires db.Valid()
    modifies db
    ensures db.Valid() && db.nextId == old(db.nextId)
    ensures GetSingleDictExecution(old(db.docs), ext, key, 0, NoSource).NotFound? ==> out == Missing(key) && db.docs == old(db.docs)
    ensures GetSingleDictExecution(old(db.docs), ext, key, 0, NoSource).Found? ==> ExecutionRemoved(old(db.docs), key, db.docs, out)
  {
    var existing := GetSingleDictExecution(db.docs, ext, key, 0, NoSource);
    if existing.NotFound? {
      return Missing(key);
    }
    out := RemoveFromActivity(db, key);
  }

  /** `update_activity_execution_relationships`: a missing execution gives the
      not-found marker; then a missing activity is always an error, and a missing
      arrangement is an error only when an arrangement id was given; after an
      error nothing is written. Otherwise the new relation fields are copied onto
      the stored execution, which the activity service writes back. */
  method UpdateRelationships(db: Gateway, ext: Outside, key: Value, relations: Record) returns (out: Reply<Record>)
    requires db.Valid()
    modifies db
    ensures db.Valid() && db.nextId == old(db.nextId)
    ensures GetSingleDictExecution(old(db.docs), ext, key, 0, NoSource).NotFound? ==> out == Missing(key) && db.docs == old(db.docs)
    ensures (GetSingleDictExecution(old(db.docs), ext, key, 0, NoSource).Found?
             && GetDocument(old(db.docs), Activity, Field(relations, ACTIVITY_ID)).NotFound?) ==>
      out == Invalid(ActivityMissing) && db.docs == old(db.docs)
    ensures (GetSingleDictExecution(old(db.docs), ext, key, 0, NoSource).Found?
             && GetDocument(old(db.docs), Activity, Field(relations, ACTIVITY_ID)).Found?
             && !ArrangementGiven(old(db.docs), relations)) ==>
      out == Invalid(ArrangementMissing) && db.docs == old(db.docs)
    ensures (GetSingleDictExecution(old(db.docs), ext, key, 0, NoSource).Found?
             && GetDocument(old(db.docs), Activity, Field(relations, ACTIVITY_ID)).Found?
             && ArrangementGiven(old(db.docs), relations)) ==>
      ExecutionReplaced(old(db.docs), key, Patched(GetSingleDictExecution(old(db.docs), ext, key, 0, NoSource).value, relations), db.docs, out)
  {
    var existing := GetSingleDictExecution(db.docs, ext, key, 0, NoSource);
    if existing.NotFound? {
      return Missing(key);
    }
    if GetDocument(db.docs, Activity, Field(relations, ACTIVITY_ID)).NotFound? {
      return Invalid(ActivityMissing);
    }
    var arrangementId := Field(relations, ARRANGEMENT_ID);
    var arrangement := GetSingleDict(db.docs, ext, Arrangement, arrangementId, 0, NoSource);
    if arrangementId != Null && arrangement.NotFound? {
      return Invalid(ArrangementMissing);
    }
    var patched := ApplyPatch(existing.value, relations);
    out := ReplaceInActivity(db, key, patched);
  }
}
