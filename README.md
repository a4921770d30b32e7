# GRISERA core services (document-store back end), modelled in Dafny

GRISERA stores experiment data as documents: experiments, scenarios, activity
executions, arrangements, measures and measure names, participants, participant
states and personalities. This project models the core of the service layer over
that document store. It covers four parts:

- **The expansion engine.** Every read takes a `depth` and a direction tag `source`.
  Each service has its own `_add_related_documents` hook, and the hooks call into
  each other. A hook does nothing at depth 0 and skips the relation named by
  `source`. Otherwise it fetches related documents one level shallower, tagged with
  its own collection. All the hooks form one mutually recursive cluster of pure
  functions (module `Expansion`), and the cluster's termination is proved.
- **Embedded arrays.** Activity executions live inside their activities, and
  participant states inside their participants. Reads rewrite the query onto the
  embedding documents and project the array. Writes append to the array, overwrite
  a slot, or delete a slot.
- **Scenario ordering.** A scenario stores its experiment id and the ordered list of
  its execution ids. The model covers insert-after-element, remove and
  change-order, and hydrating the ids back into executions.
- **The validation guards.** Services check that related ids exist before writing,
  and personalities check that trait values lie between 0 and 1.

The document store is a value `Store` (collection → ordered sequence of documents).
The storage gateway is `class Storage.Gateway`, whose methods `modifies` it. It
keeps the invariant `Valid()`: in every collection the ids are distinct and below
the gateway's id counter. Every write method of every service is a method on this
gateway. Its `ensures` names a state function of the old store (`Placed`,
`Unlinked`, `Reordered`, `Saved`, `StateAdded`, …), and lemmas prove the promised
properties about those functions. Services outside the core (participation, time
series, appearance) are a function parameter `ext: Request -> seq<Record>`. Each
`Request` records the exact query, depth and source tag the caller passes.

Modules, one per source file, plus shared ones:

- `Common`: values, records, queries;
- `Storage`: the gateway and store lemmas;
- `Expansion`: all reads and hooks;
- `Edits`: the in-place document edits;
- `Mixin`: the generic service;
- `ActivityExecutions`, `Scenarios`, `Participants`, `ParticipantStates`,
  `Personalities`, `Measures`, `Experiments`, `Arrangements`, `MeasureNames`.

## Model

| member | source | states |
|---|---|---|
| Mixin.NormalizeDates | mongo_service/service_mixins.py:34-36 | the field loop yields `Normalized(r)`: the same keys, no date-only value left, each date moved to midnight of its day (`AtMidnight`), every other value unchanged |
| Mixin.NormalizedIdempotent | mongo_service/service_mixins.py:134-136 | normalising an already normalised payload (as `update` does after `create`) changes nothing |
| Mixin.Create | mongo_service/service_mixins.py:23-40 | the normalised payload is appended to its collection under the fresh id; the counter advances by one; the answer is the stored document, re-read, with that id |
| Mixin.GetSingleDictResult | mongo_service/service_mixins.py:68-115 | not found exactly when no stored document has the id, and then the marker carries the key; otherwise the stored document expanded by its collection's hook, still carrying the requested id |
| Mixin.GetMultiple | mongo_service/service_mixins.py:42-65 | the loop applies the hook to every fetched document in storage order, with the caller's depth and source |
| Mixin.GetMultipleInStorageOrder | mongo_service/service_mixins.py:57-65 | one result per matching stored document, in storage order, each with its own id; at depth 0 exactly the stored documents, projected |
| Mixin.ExpandKeepsOwnFields | mongo_service/service_mixins.py:62-63 | a hook never adds, removes or changes a field outside the relation fields |
| Mixin.ExpandAtDepthZero | mongo_service/service_mixins.py:62-63 | every hook is the identity once the depth is used up |
| Mixin.Update | mongo_service/service_mixins.py:117-140 | a missing id gives the not-found marker and no write; a present one is replaced by the normalised payload (keeping its id) and the re-read document is returned |
| Mixin.Delete | mongo_service/service_mixins.py:142-162 | returns what the read found and removes the first document with that id; a missing id removes nothing |
| Edits.ApplyPatch | activity_execution/activity_execution_service_mongodb.py:267-268 | the `setattr` loop yields `Patched`: every field of the payload takes the payload's value, every other field keeps its own |
| Edits.IndexById | participant/participant_service_mongodb.py:193-207 | the first slot whose document has the id: it has the id, no earlier slot has it, and none is returned exactly when no slot has it |
| Edits.Appended | participant/participant_service_mongodb.py:115-117 | the array grows by exactly the new element at its end (a missing array counts as empty); every other field is kept |
| Edits.DeleteAt | participant/participant_service_mongodb.py:188 | one slot shorter; the slots before are kept and the later ones shift down; as multisets, the result plus the removed element is the original |
| Edits.FindEmbedded | activity_execution/activity_execution_service_mongodb.py:188-202 | the first document whose embedded array holds the id, with the slot `IndexById` finds there; none exactly when no document holds it |
| Expansion.RewrittenTermHolds | activity_execution/activity_execution_service_mongodb.py:84-87 | the query rewritten to `field.k` holds of an embedding document exactly when one element of its array satisfies the original term |
| Expansion.LiftExecution | activity_execution/activity_execution_service_mongodb.py:141-151 | the lifted execution satisfies the id filter, and its parent activity keeps only the projected fields, without the array |
| ActivityExecutions.ExpandArray | activity_execution/activity_execution_service_mongodb.py:100-107 | the inner loop expands each execution in order with the activity as parent |
| ActivityExecutions.ExecutionsOf | activity_execution/activity_execution_service_mongodb.py:95-110 | the outer loop yields `ExecutionsOfActivities`: each activity's executions in order, an activity without the array contributing none |
| ActivityExecutions.GetMultiple | activity_execution/activity_execution_service_mongodb.py:77-110 | `get_multiple` returns the executions of the projected activities holding a match |
| ActivityExecutions.ExecutionsInArrayOrder | activity_execution/activity_execution_service_mongodb.py:95-110 | the result is the concatenation of the arrays: one entry per embedded execution, in order, each with its own id; at depth 0 exactly the embedded documents |
| ActivityExecutions.NullExecutionKeyNotFound | activity_execution/activity_execution_service_mongodb.py:131 | with no key the object id made is a fresh one, and the read finds nothing |
| ActivityExecutions.FoundExecutionIsHeld | activity_execution/activity_execution_service_mongodb.py:131-155 | when no stored execution has an array as its id, an execution the read finds is held, by exactly that id, in a slot of a stored activity, so the activity service's writes find it too |
| ActivityExecutions.ExecutionNotHeld | activity_execution/activity_execution_service_mongodb.py:141-148 | when no activity holds an execution with the id, the read is not found |
| ActivityExecutions.GetSingleDictExecutionResult | activity_execution/activity_execution_service_mongodb.py:125-155 | found exactly when an execution is lifted; the result carries the requested id, and, past depth 0 and not coming from activities, its `activity` is the detached parent |
| ActivityExecutions.ExecutionReadSeesActivitiesOnly | activity_execution/activity_execution_service_mongodb.py:131-155 | a plain execution read depends on the activities only |
| ActivityExecutions.ExecutionHookAtDepthZero | activity_execution/activity_execution_service_mongodb.py:283 | the hook is the identity at depth 0 |
| ActivityExecutions.ExecutionHookKeepsOwnFields | activity_execution/activity_execution_service_mongodb.py:274-287 | the hook touches only its relation fields |
| ActivityExecutions.ExecutionHookAttachesActivity | activity_execution/activity_execution_service_mongodb.py:332-337 | unless coming from activities, the given parent is attached without a new read |
| ActivityExecutions.ExecutionHookRelations | activity_execution/activity_execution_service_mongodb.py:274-337 | each relation is suppressed by its own tag only. The arrangement and participations are read at depth - 1 tagged as coming from executions. The experiments of all the scenarios holding the execution are read at the same depth, and nothing is attached when there is no such scenario |
| ActivityExecutions.AddToActivity | activity_execution/activity_execution_service_mongodb.py:75 | the delegated insert: a missing activity gives not found and no write; otherwise the execution, under the fresh id, is appended to its activity's array |
| ActivityExecutions.RemoveFromActivity | activity_execution/activity_execution_service_mongodb.py:202 | the delegated removal: the first activity holding the id loses that slot, and the removed execution is returned |
| ActivityExecutions.ReplaceInActivity | activity_execution/activity_execution_service_mongodb.py:222-223 | the delegated update: that slot is overwritten, keeping the id |
| ActivityExecutions.Save | activity_execution/activity_execution_service_mongodb.py:38-75 | a given activity id naming nothing is an error, then likewise a given arrangement id, with no write after either; otherwise the execution is appended to its activity; no other collection changes |
| ActivityExecutions.Delete | activity_execution/activity_execution_service_mongodb.py:188-202 | an execution that is not found gives the marker and no write; otherwise the removal is delegated (`ExecutionRemoved`): the first activity holding the id loses that slot, and the removed execution is returned |
| ActivityExecutions.UpdateRelationships | activity_execution/activity_execution_service_mongodb.py:226-272 | missing execution ⇒ not found; then missing activity (always checked) ⇒ error; then a given arrangement naming nothing ⇒ error; no write after any of these; otherwise the patched execution, keeping its id, overwrites the slot of the first activity holding it (`ExecutionReplaced`) and is returned |
| Scenarios.IndexOf | scenario/scenario_service_mongodb.py:147-149 | `list.index`: the first slot holding the value; none exactly when the value is absent |
| Scenarios.InsertAt | scenario/scenario_service_mongodb.py:151-153 | `list.insert`: one longer, the value at the slot, earlier slots kept, later ones shifted up, and the multiset grows by exactly the value |
| Scenarios.RemoveValue | scenario/scenario_service_mongodb.py:174 | `list.remove`: fails exactly when the value is absent; otherwise deletes its first occurrence |
| Scenarios.MoveAfter | scenario/scenario_service_mongodb.py:124-128 | remove-then-insert-after keeps the elements (same multiset) and puts the moved id directly after `previous` |
| Scenarios.InsertAfterExample | scenario/scenario_service_mongodb.py:145-153 | inserting `x` after `a` in `[a, b, c]` gives `[a, x, b, c]` |
| Scenarios.MoveAfterExample | scenario/scenario_service_mongodb.py:124-128 | moving `a` after `c` in `[a, b, c]` gives `[b, c, a]` |
| Scenarios.ScenarioQuery | scenario/scenario_service_mongodb.py:349-350 | the scenario hook is `pass`, so `get_multiple` is the plain selection in storage order |
| Scenarios.HydrateKeepsId | scenario/scenario_service_mongodb.py:311-318 | hydration keeps the scenario's id |
| Scenarios.HydrateReplacesIds | scenario/scenario_service_mongodb.py:311-335 | the ids are replaced one for one, in order, by executions read at `max(depth-1, 0)`; the experiment is attached at the same depth; other fields are kept |
| Scenarios.HydrateScenario | scenario/scenario_service_mongodb.py:320-335 | the per-id loop and the experiment read produce `Hydrate` |
| Scenarios.ScenarioOfExecutionResult | scenario/scenario_service_mongodb.py:238-279 | not found exactly when no scenario lists the execution (the marker carries the key); otherwise the first scenario listing it, hydrated |
| Scenarios.ScenariosOfExecutionResult | scenario/scenario_service_mongodb.py:257-272 | with `multiple`: every scenario listing it, in storage order, each hydrated |
| Scenarios.ScenarioByExperimentResult | scenario/scenario_service_mongodb.py:281-309 | not found exactly when no scenario starts at the experiment; otherwise the first one, hydrated |
| Scenarios.ElementResolution | scenario/scenario_service_mongodb.py:188-236 | an id naming an experiment resolves as one, even when an execution shares it; otherwise an id naming an execution resolves as that; an id naming neither is not found |
| Scenarios.StoredScenario | scenario/scenario_service_mongodb.py:184-186 | the re-read gives a stored scenario with the id found; failure to re-read is the raise |
| Scenarios.InsertionPoint | scenario/scenario_service_mongodb.py:138-153 | the slot is within the list (0 after an experiment); the only error is the raise |
| Scenarios.StoredHydrated | scenario/scenario_service_mongodb.py:141 | in a collection with distinct ids, re-reading a found scenario gives back exactly the stored one |
| Scenarios.PlacedNowhere | scenario/scenario_service_mongodb.py:138-140 | an element that is neither experiment nor execution: not found, nothing written |
| Scenarios.PlacedAfterExperiment | scenario/scenario_service_mongodb.py:143-157 | after an experiment the id goes first: the list becomes `[id] + ids` in the first scenario starting there |
| Scenarios.PlacedAfterExecution | scenario/scenario_service_mongodb.py:146-157 | after an execution the id goes right after its first occurrence: `ids[..k+1] + [id] + ids[k+1..]` |
| Scenarios.UnlinkedNowhere | scenario/scenario_service_mongodb.py:170-172 | an execution no scenario lists: not found, nothing written |
| Scenarios.UnlinkedFirst | scenario/scenario_service_mongodb.py:170-178 | the first scenario listing it loses the first occurrence; the other ids keep their order |
| Scenarios.ReorderedSelfReference | scenario/scenario_service_mongodb.py:121-122 | the identical-ids error occurs exactly for a self-reference, and it writes nothing |
| Scenarios.AfterUnlink | scenario/scenario_service_mongodb.py:125 | after the removal step only that scenario changed; ids stay distinct; experiments and activities are untouched |
| Scenarios.ReorderedWithinScenario | scenario/scenario_service_mongodb.py:110-130 | moving within one scenario writes that scenario's list with `ae` removed and reinserted directly after `previous`; nothing else changes |
| Scenarios.ReorderedDetaches | scenario/scenario_service_mongodb.py:124-130 | when `previous` resolves to nothing, the execution is taken out, put nowhere, and success is still reported |
| Scenarios.LocateInsertion | scenario/scenario_service_mongodb.py:138-150 | the reading half of insert-after computes `InsertionPoint` |
| Scenarios.PutAfter | scenario/scenario_service_mongodb.py:132-157 | reply and new store are those of `Placed`; the counter is unchanged |
| Scenarios.DeleteActivityExecution | scenario/scenario_service_mongodb.py:159-182 | the new store is that of `Unlinked`; not found and raises are passed on; on success the execution is read back |
| Scenarios.ChangeOrder | scenario/scenario_service_mongodb.py:110-130 | reply and new store are those of `Reordered` |
| Scenarios.AddActivityExecution | scenario/scenario_service_mongodb.py:82-108 | as written: save, then place whatever id the answer carries |
| Scenarios.FailedSavePlacesNull | scenario/scenario_service_mongodb.py:98-106 | a failed save writes nothing, yet the id its error answer carries, null, is then listed first in the experiment's scenario |
| Scenarios.AddActivityExecutionChecked | scenario/scenario_service_mongodb.py:82-108 | as intended: a failed save leaves the store as it was; a saved execution, carrying the fresh id, is placed |
| Scenarios.SaveScenario | scenario/scenario_service_mongodb.py:40-80 | missing experiment ⇔ error with no write. Otherwise each execution is saved in turn (every step as `Saved` states it). The scenario is created with the ids read off those saves, one per save, in order. The answer is the given scenario with the save results |
| Scenarios.CheckActivityExecutions | scenario/scenario_service_mongodb.py:337-347 | passes exactly when the "id is one of" read finds as many embedded executions as ids were given |
| Participants.AddState | participant/participant_service_mongodb.py:108-120 | as `StateAdded` states: a missing participant, or an array that is not a list, raises with no write; otherwise the state, under a fresh id, is appended and the participant written back through the normalising update |
| Participants.AddedStateGoesLast | participant/participant_service_mongodb.py:115-119 | the written array is the old states, unchanged and in order, followed by exactly the new state |
| Participants.RemoveUndoesAdd | participant/participant_service_mongodb.py:180-188 | when no state has the new id, the slot finder finds the appended state last, and deleting it gives back the old array |
| Participants.UpdateState | participant/participant_service_mongodb.py:122-158 | as intended (`StateReplaced`): missing participant or state ⇒ not found with the state's id and no write; otherwise only the first slot holding the id is overwritten |
| Participants.UpdateStateAsWritten | participant/participant_service_mongodb.py:137-158 | as written: never succeeds and never writes; it raises exactly when the participant is found and its array is not a list or holds the state's id; otherwise its not-found answers are those of `UpdateState` |
| Participants.RemoveState | participant/participant_service_mongodb.py:160-191 | as `StateRemoved` states: the not-found cases; otherwise the slot is deleted, the others keep their order, and the given state is returned |
| Participants.ParticipantHookAtDepthZero | participant/participant_service_mongodb.py:209-211 | identity at depth 0 |
| Participants.ParticipantHookSkipsStates | participant/participant_service_mongodb.py:219-220 | identity when coming from participant states or without states |
| Participants.ParticipantHookStates | participant/participant_service_mongodb.py:213-224 | each embedded state expanded in its slot at depth - 1, tagged as coming from the participant, with the participant as parent; the array keeps its length and ids; the other fields are kept |
| ParticipantStates.ParticipantsReadRaw | participant_state/participant_state_service_mongodb.py:71-76 | a participant read tagged as coming from states is the stored participants, projected |
| ParticipantStates.ProjectedStatesMatch | participant_state/participant_state_service_mongodb.py:328 | the intended projection keeps only states matching the query |
| ParticipantStates.GetSingleDictStateFindsTheState | participant_state/participant_state_service_mongodb.py:103-132 | the intended read returns a state with the requested id; it is not found when no participant matches; the marker carries the key |
| ParticipantStates.GetSingleDictStateAsWrittenReturnsAnother | participant_state/participant_state_service_mongodb.py:325-335 | as written, a participant holding states 1 and 2, asked for 2, answers with 1 |
| ParticipantStates.GetSingleDictStateReturnsTheOne | participant_state/participant_state_service_mongodb.py:103-132 | with the intended projection that read answers with state 2 |
| ParticipantStates.StatesAsWrittenShareOneParent | participant_state/participant_state_service_mongodb.py:79-89 | as written, once the hook fires, every state's `participant` is the one list of all participants read |
| ParticipantStates.GetMultipleStatesAsWrittenParentIsAList | participant_state/participant_state_service_mongodb.py:60-91 | as written, for depth > 1 a returned state's `participant` is a list, not a participant |
| ParticipantStates.StatesAsWrittenComeFromHolders | participant_state/participant_state_service_mongodb.py:79-89 | as written, every state returned is, by id, one of the states embedded in one of the participants read |
| ParticipantStates.GetMultipleStatesAsWrittenHeld | participant_state/participant_state_service_mongodb.py:60-91 | as written, every state returned is, by id, a state of a stored participant the rewritten filter selects, whether or not that state itself matches |
| ParticipantStates.StatesCarryTheirHolder | participant_state/participant_state_service_mongodb.py:79-89 | as intended, every state's `participant` is one of the participants read, detached from its array |
| ParticipantStates.GetMultipleStatesParentIsTheHolder | participant_state/participant_state_service_mongodb.py:60-91 | as intended, for depth > 0 a returned state's `participant` is a single participant, detached from its array, among those read |
| ParticipantStates.StatesOfParticipantsKeepKey | participant_state/participant_state_service_mongodb.py:78-91 | states that the projection kept as matching a one-field filter still match it once expanded |
| ParticipantStates.GetMultipleStatesMatch | participant_state/participant_state_service_mongodb.py:60-91 | as intended (the corrected projection): every state returned for a one-field filter on a state field satisfies the filter |
| ParticipantStates.StateHookAtDepthZero | participant_state/participant_state_service_mongodb.py:268 | identity at depth 0 |
| ParticipantStates.StateHookAttachesParticipant | participant_state/participant_state_service_mongodb.py:274-279 | unless coming from the participant, the given parent is attached |
| ParticipantStates.ExpandedStatesCarryParent | participant_state/participant_state_service_mongodb.py:82-88 | every state of a list expansion carries the parent given |
| ParticipantStates.StateHookKeepsOwnFields | participant_state/participant_state_service_mongodb.py:260-323 | the hook touches only its four relation fields |
| ParticipantStates.StateHookPersonalities | participant_state/participant_state_service_mongodb.py:309-323 | the personalities attached are the stored personalities with the listed ids, in storage order, not expanded back |
| ParticipantStates.StateHookRelations | participant_state/participant_state_service_mongodb.py:274-291 | participations are read at depth - 1 tagged as coming from states, unless that is the source; the participant is attached unless that is the source |
| ParticipantStates.CheckRelatedFields | participant_state/participant_state_service_mongodb.py:217-233 | passes exactly when all three checks pass, tried in the source's order; a participant failure means one was named and not found |
| ParticipantStates.CheckRelatedFieldsAsWritten | participant_state/participant_state_service_mongodb.py:235-238 | as written, the participant failure can never be reported |
| ParticipantStates.MissingParticipantPassesAsWritten | participant_state/participant_state_service_mongodb.py:235-238 | a state naming a missing participant passes the check as written and is refused by the intended one |
| ParticipantStates.PersonalityCheckMeansAllExist | participant_state/participant_state_service_mongodb.py:240-249 | over a gateway-kept collection and a list without repeats, the count check passes exactly when every listed id is a stored personality |
| ParticipantStates.CountMeansAllExist | participant_state/participant_state_service_mongodb.py:243-248 | over distinct stored ids, the "id is one of" filter selects as many documents as ids exactly when every id is stored |
| ParticipantStates.Save | participant_state/participant_state_service_mongodb.py:43-58 | with the check as written: a failed appearance or personality check is returned with no write; otherwise the state is added as `StateAdded` states, so a named participant that does not exist raises, with no write |
| Personalities.GetPersonalityResult | personality/personality_service_mongodb.py:75-100 | finds exactly the stored personalities; reports the stored record's kind, PANAS exactly when it has a negative affect; carries the requested id |
| Personalities.ReadAtDepthZero | personality/personality_service_mongodb.py:109 | a plain read of many is the matching stored records |
| Personalities.GetPersonalities | personality/personality_service_mongodb.py:102-121 | one result per matching stored personality, in order, each tagged with its kind |
| Personalities.Service.Save | personality/personality_service_mongodb.py:29-73 | a trait out of [0, 1] is an error with no write; otherwise the output kind is set and the normalised payload created under the fresh id |
| Personalities.Service.Update | personality/personality_service_mongodb.py:135-196 | out of range ⇒ error; missing or of the other kind ⇒ not found; no write in any of these; otherwise the payload is written as given and the re-read personality returned with its kind |
| Personalities.PanasPayloadIsPanas | personality/personality_service_mongodb.py:181-196 | a PANAS payload passing its guard reads back as PANAS |
| Personalities.PersonalityHookSkips | personality/personality_service_mongodb.py:198-208 | identity at depth 0 or when coming from participant states |
| Personalities.PersonalityHookStates | personality/personality_service_mongodb.py:207-216 | the states attached are, in order, those the participant-state `get_multiple` returns as written, read at depth - 1 tagged as coming from personalities; each is, by id, a state of a stored participant holding a state that lists this personality |
| Personalities.PersonalityHookAttachesUnlisted | personality/personality_service_mongodb.py:207-216 | as written, for a participant holding state 1, which lists personality 9, and state 2, which lists none, reading 9 at depth 1 attaches both states |
| Measures.Save | measure/measure_service_mongodb.py:35-51 | a given measure-name id naming nothing is an error with no write; otherwise the normalised measure is created under the fresh id |
| Measures.Update | measure/measure_service_mongodb.py:98-119 | a missing measure raises with no write; otherwise the payload's fields are copied onto the stored measure, written back and returned as patched |
| Measures.UpdateRelationships | measure/measure_service_mongodb.py:121-158 | missing measure ⇒ not found; a given name naming nothing ⇒ error; no write in either case; otherwise only `measure_name_id` changes, and the re-read measure is returned |
| Measures.RelationshipUpdateTouchesOnlyName | measure/measure_service_mongodb.py:149-151 | the relationship update changes `measure_name_id` and no other field |
| Measures.MeasureHookAtDepthZero | measure/measure_service_mongodb.py:162 | identity at depth 0 |
| Measures.MeasureHookRelations | measure/measure_service_mongodb.py:161-183 | time series are filtered on the measure id, and the measure name is read when set; both at depth - 1, tagged as coming from measures; each is suppressed only by its own tag |
| Measures.MeasureHookName | measure/measure_service_mongodb.py:175-183 | the attached name is the stored one, expanded, or the not-found marker carrying the id |
| Experiments.GetExperiment | experiment/experiment_service_mongodb.py:51-65 | not found exactly when absent; otherwise the stored experiment, expanded, carrying the id |
| Experiments.ExperimentHookAtDepthZero | experiment/experiment_service_mongodb.py:97-98 | identity at depth 0 |
| Experiments.ExperimentHookFromExecution | experiment/experiment_service_mongodb.py:97-98 | identity when coming from an execution |
| Experiments.ExperimentHookWithoutScenario | experiment/experiment_service_mongodb.py:100-104 | identity when no scenario starts at the experiment |
| Experiments.ExperimentHookListsScenario | experiment/experiment_service_mongodb.py:96-106 | otherwise the first such scenario's executions, one read per id in order at depth 0; other fields kept |
| Arrangements.GetArrangement | arrangement/arrangement_service_mongodb.py:51-65 | not found exactly when absent; otherwise the stored arrangement, expanded, carrying the id |
| Arrangements.GetArrangements | arrangement/arrangement_service_mongodb.py:37-49 | every stored arrangement as stored, in storage order |
| Arrangements.ArrangementHookAtDepthZero | arrangement/arrangement_service_mongodb.py:67-75 | identity at depth 0 |
| Arrangements.ArrangementHookFromExecution | arrangement/arrangement_service_mongodb.py:67-75 | identity when coming from an execution |
| Arrangements.ArrangementHookExecutions | arrangement/arrangement_service_mongodb.py:67-75 | otherwise the executions with this arrangement id, read at depth - 1, one per embedded match, in order, each with its own id |
| MeasureNames.GetMeasureName | measure_name/measure_name_service_mongodb.py:54-68 | not found exactly when absent; otherwise the stored name, expanded, carrying the id |
| MeasureNames.GetMeasureNames | measure_name/measure_name_service_mongodb.py:43-52 | every stored measure name as stored, in storage order |
| MeasureNames.MeasureNameHookAtDepthZero | measure_name/measure_name_service_mongodb.py:70-76 | identity at depth 0 |
| MeasureNames.MeasureNameHookFromMeasure | measure_name/measure_name_service_mongodb.py:70-76 | identity when coming from a measure |
| MeasureNames.MeasureNameHookMeasures | measure_name/measure_name_service_mongodb.py:70-76 | otherwise the measures of this name, read at depth - 1, one per stored measure, in storage order, each with its id |

## Left out

- **HTTP, pydantic and dataset handling.** HTTP handling, pydantic model classes and
  their validation, and the conversion of dictionaries to and from models are not
  modelled. Results are dictionaries, and error answers are `Reply`/`Lookup` cases.
- **The `dataset_name` argument.** It is plumbing here (one store). Missing or
  misplaced `dataset_name` arguments in calls are ignored. For example, `update`
  (mongo_service/service_mixins.py:117) is called without one by the participant
  service.
- **Object ids.** Object-id strings and their conversion are not modelled. Ids are
  `Ref(n)` values allocated by the gateway's counter, including the ids of
  embedded states and executions. The source draws those from `ObjectId()`
  directly.
- **The storage gateway's internals.** The document-store client and its query
  language are not part of this model. The gateway is a `Store` value with
  select / project / find-first / replace-first / remove-first. The `$elemMatch`
  projection is modelled as "keep every matching element", where the store keeps
  only the first. The two differ where a filter matches several elements of one
  document: the executions of an arrangement (`Arrangements.ArrangementHookExecutions`,
  a filter on `arrangement_id`), the scenario's check of its execution ids
  (`Scenarios.CheckActivityExecutions`, an "id is one of" filter) and
  `ActivityExecutions.GetMultiple` get every matching execution of an activity
  here, and one per activity from the store.
- **Exceptions.** Python exceptions (a missing key, `list.index` or `list.remove`
  of an absent value, `setattr` on a not-found marker, `.dict()` on a dictionary)
  are the error `Raised`, and nothing is written after them. A missing dictionary
  key reads as null wherever the source reads it with a default. It also reads as
  null at plain subscripts where the source raises `KeyError`:
  activity_execution/activity_execution_service_mongodb.py:308-312 (`id`),
  measure/measure_service_mongodb.py:176 (`measure_name_id`),
  participant/participant_service_mongodb.py:137 (`participant_id`) and 219
  (`participant_states`), participant_state/participant_state_service_mongodb.py:296
  (`appearance_ids`) and 312 (`personality_ids`), and
  scenario/scenario_service_mongodb.py:333 (`experiment_id`).
- **Copies instead of in-place hooks.** Hooks update fetched dictionaries in place.
  Here they return the updated copy, because every fetched dictionary is a fresh
  object owned by the caller. Aliasing and cyclic structures built by attaching a
  parent are not modelled.
- **Services outside the core.** The hooks and services of activity, participation,
  time series, appearance, recording and dataset are not modelled. Their reads are
  the parameter `ext`. The activity service's reads are unexpanded gateway reads,
  and its three embedded-array writes are modelled as the edits they stand for.
- **The thin delegations.** `get_measure`, `delete_measure`, `save_participant`,
  `get_participants`, `delete_participant`, `update_participant`,
  `save_experiment`, `get_experiments`, `delete_experiment`, `save_arrangement`,
  `save_measure_name` and `delete_personality` only call the mixin, and are covered
  by the mixin members.
- **Personality's missing mixin base.** The personality class does not list the
  mixin as a base class (personality/personality_service_mongodb.py:19-27), yet it
  calls `create`, `get_single_dict`, `get_multiple` and `delete`. It is modelled
  with the mixin's behaviour. The `model_out_class` switch is the one field
  `Personalities.Service` keeps, and both personality kinds share one collection.
- Personalities.Service.Save: a trait that is not a number is read as out of range.
  The source's comparison would raise instead.
- Participant-state `get_single`: its model conversion is not modelled, so it is
  `get_single_dict`.
- **Participant-state updates.** `update_participant_state` and
  `update_participant_state_relationships`
  (participant_state/participant_state_service_mongodb.py:171-215) pass a model
  where the participant service indexes a dictionary, and call the participant
  service with a misplaced argument at 187-189 and 210-212. These paths are left
  out. The participant service's own update is modelled as `Participants.UpdateState`.
- **`delete_participant_state`** (participant_state/participant_state_service_mongodb.py:153-169)
  deletes through a recording service that this service never sets. It is left out.
- **`update_experiment`** (experiment/experiment_service_mongodb.py:79-94) calls
  `.items` without parentheses. It is left out.
- **The debug `print`** in `get_scenario_by_experiment` (scenario/scenario_service_mongodb.py:297)
  is not modelled.
- Scenarios.SaveScenario: the answer leaves out the created scenario's id, as the
  source does. It is stated as such, not raised as a finding.
- ParticipantStates.PersonalityCheckMeansAllExist: the check is characterised only
  for id lists without repeats. With repeats the count comparison can fail even
  though every id exists.
- Expansion.StatesAsWritten: a fetched participant without a states array
  contributes no states, here and in `Expansion.GetMultipleStates`. The source
  raises `KeyError` at participant_state/participant_state_service_mongodb.py:80.
- Expansion.GetSingleDictExecution: a key that is not a reference reads as not
  found. The source converts it with `ObjectId`
  (activity_execution/activity_execution_service_mongodb.py:131), which raises on
  a malformed string or a number and converts a well-formed hex string. Only a
  missing key gives a fresh id that finds nothing (`NullExecutionKeyNotFound`).
- ParticipantStates.GetMultipleStatesMatch: holds of the corrected read
  `Expansion.GetMultipleStates` only. As written the projection returns whole
  arrays, so the non-matching states of a selected participant come back too;
  `ParticipantStates.GetMultipleStatesAsWrittenHeld` states what holds instead.
- Measures.UpdateRelationships: the model writes the stored measure with the new
  name id. The source first converts the read result to the input model, which
  drops any field that model does not declare.
- Mixin.Delete: the not-found guard of the source compares with `None` and never
  fires. The gateway's delete is then given the not-found marker, and it is
  modelled as removing nothing.

## Findings

Each row pairs the code as written with a corrected member, and proves the
intended property of the corrected one. Where the program itself runs the faulty
code, the model follows the program: the personality hook reads its states with
`Expansion.GetMultipleStatesAsWritten`, and `ParticipantStates.Save` checks with
`ParticipantStates.CheckRelatedFieldsAsWritten`. `Participants.UpdateState` and
`Scenarios.AddActivityExecutionChecked` stand beside the as-written members
and are called by nothing else.

| source | as written | input that shows it | evidently intended | confidence | as-written member | corrected member |
|---|---|---|---|---|---|---|
| scenario/scenario_service_mongodb.py:98-104 | the id of the save answer is placed whether or not the save succeeded | an execution naming a missing activity, added after an experiment with a scenario: the error answer's null id is inserted first in the list | place the id only when the save succeeded | not executed | Scenarios.AddActivityExecution, Scenarios.FailedSavePlacesNull | Scenarios.AddActivityExecutionChecked |
| participant/participant_service_mongodb.py:157 | the participant dictionary is passed to `update`, which calls `.dict()` on it (mongo_service/service_mixins.py:134) | any update of an existing state: it raises, and nothing is written | write back the participant with the slot overwritten | not executed | Participants.UpdateStateAsWritten | Participants.UpdateState |
| participant_state/participant_state_service_mongodb.py:325-335 | the projection names `participant_states` twice; the later entry, the whole array, wins | a participant holding states 1 and 2, read for state 2: state 1 comes back | keep only the matching state | not executed | ParticipantStates.GetSingleDictStateAsWritten, ParticipantStates.GetSingleDictStateAsWrittenReturnsAnother, Personalities.PersonalityHookAttachesUnlisted | ParticipantStates.GetSingleDictState, ParticipantStates.GetSingleDictStateFindsTheState, ParticipantStates.GetSingleDictStateReturnsTheOne, ParticipantStates.GetMultipleStatesMatch |
| participant_state/participant_state_service_mongodb.py:82-88 | each state is expanded at `depth - 1`, with the list of all participants read as its parent | a read of states at depth 2: every state's `participant` is that list | expand at `depth`, with the state's own participant as parent, as `get_single_dict` does at 126-131 | not executed | Expansion.GetMultipleStatesAsWritten, ParticipantStates.GetMultipleStatesAsWrittenParentIsAList | Expansion.GetMultipleStates, ParticipantStates.GetMultipleStatesParentIsTheHolder |
| participant_state/participant_state_service_mongodb.py:237 | the result is compared, by identity, with the not-found class and not with an instance of it | a state naming a participant id that does not exist passes the check | refuse a named participant that does not exist | not executed | ParticipantStates.CheckRelatedFieldsAsWritten, ParticipantStates.MissingParticipantPassesAsWritten, ParticipantStates.Save | ParticipantStates.CheckRelatedFields |
