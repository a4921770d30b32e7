/** The participant-state service. Participant states have no collection of their
    own: they are embedded in participant documents, so every read goes through
    the participants and every write through the participant service. */
module ParticipantStates {
  import opened Common
  import opened Storage
  import opened Expansion
  import Participants

  // ---------------------------------------------------------------------------
  // Reads

  /** `_get_participant_projection` as it evidently intends: the participant's own
      fields and only the embedded states matching the query. */
  function StateProjection(q: Query): Projection {
    ParticipantProjection(q)
  }

  /** The body of `get_single_dict`, under a given projection: the participants
      holding a state with id `key` (read at `depth - 1`, tagged as coming from
      participant states); none, or a first one without states, is not found;
      otherwise the first state of the first participant, expanded by the hook at
      `depth` with that participant, detached from its array, as parent. */
  function StateRead(st: Store, ext: Outside, key: Value, depth: int, source: Collection, projection: Projection): Lookup<Record> {
    var participants := GetMultiple(st, ext, Participant, Rewrite([KeyIs(ID, key)], PARTICIPANT_STATES), projection, depth - 1, ParticipantState);
    if participants == [] || Items(Field(participants[0], PARTICIPANT_STATES)) == [] then NotFound(key)
    else
      var holder := participants[0];
      Found(ExpandParticipantState(st, ext, AsRecord(Items(Field(holder, PARTICIPANT_STATES))[0]), depth, source, Obj(Without(holder, PARTICIPANT_STATES))))
  }

  /** `get_single_dict` with the projection it evidently intends. */
  function GetSingleDictState(st: Store, ext: Outside, key: Value, depth: int, source: Collection): Lookup<Record> {
    StateRead(st, ext, key, depth, source, StateProjection([KeyIs(ID, key)]))
  }

  /** `get_single_dict` as written. */
  function GetSingleDictStateAsWritten(st: Store, ext: Outside, key: Value, depth: int, source: Collection): Lookup<Record> {
    StateRead(st, ext, key, depth, source, StateProjectionAsWritten())
  }

  /** A participant read tagged as coming from participant states is the stored
      participant itself (projected): its hook does not go back to the states. */
  lemma ParticipantsReadRaw(st: Store, ext: Outside, q: Query, p: Projection, depth: int)
    ensures GetMultiple(st, ext, Participant, q, p, depth, ParticipantState) == GetDocuments(st, Participant, q, p)
  {
    var rs := GetDocuments(st, Participant, q, p);
    var out := GetMultiple(st, ext, Participant, q, p, depth, ParticipantState);
    assert forall i :: 0 <= i < |rs| ==> out[i] == ExpandParticipant(st, ext, rs[i], depth, ParticipantState);
  }

  /** The intended projection keeps only states matching the query. */
  lemma ProjectedStatesMatch(r: Record, q: Query)
    ensures var kept := Items(Field(Project(StateProjection(q), r), PARTICIPANT_STATES));
      forall i :: 0 <= i < |kept| ==> Matches(AsRecord(kept[i]), q)
  {
  }

  /** The read of one state finds the state asked for: what it returns carries the
      requested id, it is not found when no participant matches, and the not-found
      marker carries the key. */
  lemma GetSingleDictStateFindsTheState(st: Store, ext: Outside, key: Value, depth: int, source: Collection)
    ensures var out := GetSingleDictState(st, ext, key, depth, source);
      && (out.Found? ==> Satisfies(Field(out.value, ID), Is(key)))
      && (out.NotFound? ==> out.key == key)
      && ((forall i :: 0 <= i < |Docs(st, Participant)| ==> !Matches(Docs(st, Participant)[i], Rewrite([KeyIs(ID, key)], PARTICIPANT_STATES))) ==> out.NotFound?)
  {
    var q := [KeyIs(ID, key)];
    var rq := Rewrite(q, PARTICIPANT_STATES);
    var proj := StateProjection(q);
    ParticipantsReadRaw(st, ext, rq, proj, depth - 1);
    var participants := GetDocuments(st, Participant, rq, proj);
    SelectEmpty(Docs(st, Participant), rq);
    if participants != [] && Items(Field(participants[0], PARTICIPANT_STATES)) != [] {
      var kept := Items(Field(participants[0], PARTICIPANT_STATES));
      ProjectedStatesMatch(Select(Docs(st, Participant), rq)[0], q);
      KeyIsMatches(AsRecord(kept[0]), ID, key);
      StateHookKeepsOwnFields(st, ext, AsRecord(kept[0]), depth, source, Obj(Without(participants[0], PARTICIPANT_STATES)), ID);
    }
  }

  /** The store of the counterexample below: one participant holding the states 1
      and 2, in that order. */
  function TwoStates(): Store {
    map[Participant := [map[ID := Ref(0), PARTICIPANT_STATES := List([Obj(map[ID := Ref(1)]), Obj(map[ID := Ref(2)])])]]]
  }

  /** That participant is the one a read of state 2 fetches. */
  lemma TwoStatesHolderMatches()
    ensures var holder := TwoStates()[Participant][0];
      Select(Docs(TwoStates(), Participant), Rewrite([KeyIs(ID, Ref(2))], PARTICIPANT_STATES)) == [holder]
  {
    var holder := TwoStates()[Participant][0];
    var t := KeyIs(ID, Ref(2));
    var rq := Rewrite([t], PARTICIPANT_STATES);
    assert [ID][1..] == [];
    RewrittenTermHolds(holder, PARTICIPANT_STATES, t);
    assert Field(holder, PARTICIPANT_STATES).items[1] == Obj(map[ID := Ref(2)]);
    assert Reaches(Field(holder, PARTICIPANT_STATES).items[1], [ID], Is(Ref(2)));
    assert Matches(holder, rq);
    assert [holder][1..] == [];
  }

  /** As written, that participant asked for state 2 answers with state 1. */
  lemma GetSingleDictStateAsWrittenReturnsAnother(ext: Outside)
    ensures GetSingleDictStateAsWritten(TwoStates(), ext, Ref(2), 0, NoSource) == Found(map[ID := Ref(1)])
  {
    var rq := Rewrite([KeyIs(ID, Ref(2))], PARTICIPANT_STATES);
    TwoStatesHolderMatches();
    ParticipantsReadRaw(TwoStates(), ext, rq, StateProjectionAsWritten(), -1);
  }

  /** With the intended projection the same read answers with state 2. */
  lemma GetSingleDictStateReturnsTheOne(ext: Outside)
    ensures GetSingleDictState(TwoStates(), ext, Ref(2), 0, NoSource) == Found(map[ID := Ref(2)])
  {
    var q := [KeyIs(ID, Ref(2))];
    var rq := Rewrite(q, PARTICIPANT_STATES);
    TwoStatesHolderMatches();
    ParticipantsReadRaw(TwoStates(), ext, rq, StateProjection(q), -1);
    var first := map[ID := Ref(1)];
    var second := map[ID := Ref(2)];
    KeyIsMatches(first, ID, Ref(2));
    KeyIsMatches(second, ID, Ref(2));
    var states := [Obj(first), Obj(second)];
    assert states[1..] == [Obj(second)];
    assert [Obj(second)][1..] == [];
    assert MatchingElements(states, q) == [Obj(second)];
  }

  /** As written, once the hook fires every state's parent is the list of all the
      participants read, not an object. */
  lemma {:induction false} StatesAsWrittenShareOneParent(st: Store, ext: Outside, ps: seq<Record>, depth: int, source: Collection, parents: Value, r: Record)
    requires depth > 1 && source != Participant
    requires r in StatesAsWritten(st, ext, ps, depth, source, parents)
    ensures "participant" in r && r["participant"] == parents
  {
    var own := if PARTICIPANT_STATES in ps[0] then ExpandStates(st, ext, Items(ps[0][PARTICIPANT_STATES]), depth - 1, source, parents) else [];
    assert StatesAsWritten(st, ext, ps, depth, source, parents) == own + StatesAsWritten(st, ext, ps[1..], depth, source, parents);
    if r in own {
      ExpandedStatesCarryParent(st, ext, Items(ps[0][PARTICIPANT_STATES]), depth - 1, source, parents, r);
    } else {
      StatesAsWrittenShareOneParent(st, ext, ps[1..], depth, source, parents, r);
    }
  }

  lemma GetMultipleStatesAsWrittenParentIsAList(st: Store, ext: Outside, q: Query, depth: int, source: Collection, r: Record)
    requires depth > 1 && source != Participant
    requires r in GetMultipleStatesAsWritten(st, ext, q, depth, source)
    ensures "participant" in r && r["participant"].List?
  {
    var participants := GetMultiple(st, ext, Participant, Rewrite(q, PARTICIPANT_STATES), StateProjectionAsWritten(), depth - 1, ParticipantState);
    StatesAsWrittenShareOneParent(st, ext, participants, depth, source, List(Holders(participants)), r);
  }

  /** `r` is, by id, one of the states embedded in a stored participant that the
      filter `q`, rewritten onto the participants, selects. */
  predicate HeldBySelected(st: Store, q: Query, r: Record) {
    exists j, i :: 0 <= j < |Docs(st, Participant)| && Matches(Docs(st, Participant)[j], Rewrite(q, PARTICIPANT_STATES))
      && 0 <= i < |Items(Field(Docs(st, Participant)[j], PARTICIPANT_STATES))|
      && Field(r, ID) == Field(AsRecord(Items(Field(Docs(st, Participant)[j], PARTICIPANT_STATES))[i]), ID)
  }

  /** `r` is, by id, one of the states embedded in one of the participants `ps`. */
  predicate HeldIn(ps: seq<Record>, r: Record) {
    exists j, i :: 0 <= j < |ps| && 0 <= i < |Items(Field(ps[j], PARTICIPANT_STATES))|
      && Field(r, ID) == Field(AsRecord(Items(Field(ps[j], PARTICIPANT_STATES))[i]), ID)
  }

  /** A state a list expansion produces keeps the id of the element it came from. */
  lemma ExpandedStateKeepsId(st: Store, ext: Outside, vs: seq<Value>, depth: int, source: Collection, parent: Value, r: Record)
    requires r in ExpandStates(st, ext, vs, depth, source, parent)
    ensures exists i :: 0 <= i < |vs| && Field(r, ID) == Field(AsRecord(vs[i]), ID)
  {
    var out := ExpandStates(st, ext, vs, depth, source, parent);
    var i :| 0 <= i < |out| && out[i] == r;
    StateHookKeepsOwnFields(st, ext, AsRecord(vs[i]), depth, source, parent, ID);
  }

  /** As written, every state returned is, by id, one of the states embedded in one
      of the participants read. */
  lemma {:induction false} StatesAsWrittenComeFromHolders(st: Store, ext: Outside, ps: seq<Record>, depth: int, source: Collection, parents: Value, r: Record)
    requires r in StatesAsWritten(st, ext, ps, depth, source, parents)
    ensures HeldIn(ps, r)
  {
    var own := if PARTICIPANT_STATES in ps[0] then ExpandStates(st, ext, Items(ps[0][PARTICIPANT_STATES]), depth - 1, source, parents) else [];
    assert StatesAsWritten(st, ext, ps, depth, source, parents) == own + StatesAsWritten(st, ext, ps[1..], depth, source, parents);
    if r in own {
      ExpandedStateKeepsId(st, ext, Items(ps[0][PARTICIPANT_STATES]), depth - 1, source, parents, r);
      assert Field(ps[0], PARTICIPANT_STATES) == ps[0][PARTICIPANT_STATES];
    } else {
      StatesAsWrittenComeFromHolders(st, ext, ps[1..], depth, source, parents, r);
      HeldInRest(ps, r);
    }
  }

  /** A state held in a later participant is held in the list. */
  lemma HeldInRest(ps: seq<Record>, r: Record)
    requires ps != [] && HeldIn(ps[1..], r)
    ensures HeldIn(ps, r)
  {
    var j, i :| 0 <= j < |ps| - 1 && 0 <= i < |Items(Field(ps[1..][j], PARTICIPANT_STATES))|
      && Field(r, ID) == Field(AsRecord(Items(Field(ps[1..][j], PARTICIPANT_STATES))[i]), ID);
    assert ps[1..][j] == ps[j + 1];
  }

  /** Projecting the whole array leaves it as stored. */
  lemma WholeArrayKept(d: Record)
    ensures Field(Project(StateProjectionAsWritten(), d), PARTICIPANT_STATES) == Field(d, PARTICIPANT_STATES)
  {
  }

  /** As written, every state `get_multiple` returns is, by id, one of the states of
      a stored participant the filter selects: the filter picks the participants,
      not their states. */
  lemma GetMultipleStatesAsWrittenHeld(st: Store, ext: Outside, q: Query, depth: int, source: Collection, r: Record)
    requires r in GetMultipleStatesAsWritten(st, ext, q, depth, source)
    ensures HeldBySelected(st, q, r)
  {
    var rq := Rewrite(q, PARTICIPANT_STATES);
    ParticipantsReadRaw(st, ext, rq, StateProjectionAsWritten(), depth - 1);
    var selected := Select(Docs(st, Participant), rq);
    var ps := GetDocuments(st, Participant, rq, StateProjectionAsWritten());
    StatesAsWrittenComeFromHolders(st, ext, ps, depth, source, List(Holders(ps)), r);
    var j, i :| 0 <= j < |ps| && 0 <= i < |Items(Field(ps[j], PARTICIPANT_STATES))|
      && Field(r, ID) == Field(AsRecord(Items(Field(ps[j], PARTICIPANT_STATES))[i]), ID);
    WholeArrayKept(selected[j]);
    var k :| 0 <= k < |Docs(st, Participant)| && Docs(st, Participant)[k] == selected[j];
    assert Matches(Docs(st, Participant)[k], rq);
  }

  /** With the intended reading each state's parent is the one participant holding
      it, detached from its array. */
  lemma {:induction false} StatesCarryTheirHolder(st: Store, ext: Outside, ps: seq<Record>, depth: int, source: Collection, r: Record)
    requires depth > 0 && source != Participant
    requires r in StatesOfParticipants(st, ext, ps, depth, source)
    ensures "participant" in r && r["participant"] in Holders(ps)
  {
    var p := ps[0];
    var own := if PARTICIPANT_STATES in p then ExpandStates(st, ext, Items(p[PARTICIPANT_STATES]), depth, source, Obj(Without(p, PARTICIPANT_STATES))) else [];
    assert StatesOfParticipants(st, ext, ps, depth, source) == own + StatesOfParticipants(st, ext, ps[1..], depth, source);
    if r in own {
      ExpandedStatesCarryParent(st, ext, Items(p[PARTICIPANT_STATES]), depth, source, Obj(Without(p, PARTICIPANT_STATES)), r);
      assert r["participant"] == Holders(ps)[0];
    } else {
      StatesCarryTheirHolder(st, ext, ps[1..], depth, source, r);
      var j :| 0 <= j < |ps| - 1 && Holders(ps[1..])[j] == r["participant"];
      assert Holders(ps)[j + 1] == r["participant"];
    }
  }

  lemma GetMultipleStatesParentIsTheHolder(st: Store, ext: Outside, q: Query, depth: int, source: Collection, r: Record)
    requires depth > 0 && source != Participant
    requires r in GetMultipleStates(st, ext, q, depth, source)
    ensures var participants := GetMultiple(st, ext, Participant, Rewrite(q, PARTICIPANT_STATES), ParticipantProjection(q), depth - 1, ParticipantState);
      "participant" in r && r["participant"].Obj? && r["participant"] in Holders(participants)
  {
    var participants := GetMultiple(st, ext, Participant, Rewrite(q, PARTICIPANT_STATES), ParticipantProjection(q), depth - 1, ParticipantState);
    StatesCarryTheirHolder(st, ext, participants, depth, source, r);
  }

  /** The fields a state hook attaches. */
  const STATE_RELATIONS: set<string> := {"personalities", "appearances", "participations", "participant"}

  /** States kept by a projection that satisfy a one-field filter still satisfy it
      once expanded, whatever participant they are given. */
  lemma {:induction false} StatesOfParticipantsKeepKey(st: Store, ext: Outside, ps: seq<Record>, depth: int, source: Collection, k: string, v: Value, r: Record)
    requires k !in STATE_RELATIONS
    requires forall j, i :: 0 <= j < |ps| && 0 <= i < |Items(Field(ps[j], PARTICIPANT_STATES))| ==>
      Satisfies(Field(AsRecord(Items(Field(ps[j], PARTICIPANT_STATES))[i]), k), Is(v))
    requires r in StatesOfParticipants(st, ext, ps, depth, source)
    ensures Satisfies(Field(r, k), Is(v))
  {
    var p := ps[0];
    var own := if PARTICIPANT_STATES in p then ExpandStates(st, ext, Items(p[PARTICIPANT_STATES]), depth, source, Obj(Without(p, PARTICIPANT_STATES))) else [];
    assert StatesOfParticipants(st, ext, ps, depth, source) == own + StatesOfParticipants(st, ext, ps[1..], depth, source);
    if r in own {
      var i :| 0 <= i < |own| && own[i] == r;
      StateHookKeepsOwnFields(st, ext, AsRecord(Items(p[PARTICIPANT_STATES])[i]), depth, source, Obj(Without(p, PARTICIPANT_STATES)), k);
      assert Satisfies(Field(AsRecord(Items(Field(ps[0], PARTICIPANT_STATES))[i]), k), Is(v));
    } else {
      forall j, i | 0 <= j < |ps| - 1 && 0 <= i < |Items(Field(ps[1..][j], PARTICIPANT_STATES))|
        ensures Satisfies(Field(AsRecord(Items(Field(ps[1..][j], PARTICIPANT_STATES))[i]), k), Is(v))
      {
        assert ps[1..][j] == ps[j + 1];
      }
      StatesOfParticipantsKeepKey(st, ext, ps[1..], depth, source, k, v, r);
    }
  }

  /** Every state `get_multiple` returns for a one-field filter satisfies it (given
      that the filter is on a field of the state, not one the hook attaches). */
  lemma GetMultipleStatesMatch(st: Store, ext: Outside, k: string, v: Value, depth: int, source: Collection, r: Record)
    requires k !in STATE_RELATIONS
    requires r in GetMultipleStates(st, ext, [KeyIs(k, v)], depth, source)
    ensures Satisfies(Field(r, k), Is(v))
  {
    var q := [KeyIs(k, v)];
    var rq := Rewrite(q, PARTICIPANT_STATES);
    ParticipantsReadRaw(st, ext, rq, ParticipantProjection(q), depth - 1);
    var ps := GetDocuments(st, Participant, rq, ParticipantProjection(q));
    forall j, i | 0 <= j < |ps| && 0 <= i < |Items(Field(ps[j], PARTICIPANT_STATES))|
      ensures Satisfies(Field(AsRecord(Items(Field(ps[j], PARTICIPANT_STATES))[i]), k), Is(v))
    {
      ProjectedStatesMatch(Select(Docs(st, Participant), rq)[j], q);
      KeyIsMatches(AsRecord(Items(Field(ps[j], PARTICIPANT_STATES))[i]), k, v);
    }
    StatesOfParticipantsKeepKey(st, ext, ps, depth, source, k, v, r);
  }

  // ---------------------------------------------------------------------------
  // The hook

  /** The hook does nothing once the depth is used up. */
  lemma StateHookAtDepthZero(st: Store, ext: Outside, s: Record, depth: int, source: Collection, participant: Value)
    requires depth <= 0
    ensures ExpandParticipantState(st, ext, s, depth, source, participant) == s
  {
  }

  /** Past depth zero, the given participant is attached unless the read came from it. */
  lemma StateHookAttachesParticipant(st: Store, ext: Outside, s: Record, depth: int, source: Collection, participant: Value)
    requires depth > 0 && source != Participant
    ensures var out := ExpandParticipantState(st, ext, s, depth, source, participant);
      "participant" in out && out["participant"] == participant
  {
  }

  /** Every state a list expansion produces carries the parent it was given. */
  lemma ExpandedStatesCarryParent(st: Store, ext: Outside, vs: seq<Value>, depth: int, source: Collection, parent: Value, r: Record)
    requires depth > 0 && source != Participant
    requires r in ExpandStates(st, ext, vs, depth, source, parent)
    ensures "participant" in r && r["participant"] == parent
  {
    var out := ExpandStates(st, ext, vs, depth, source, parent);
    var i :| 0 <= i < |out| && out[i] == r;
    StateHookAttachesParticipant(st, ext, AsRecord(vs[i]), depth, source, parent);
  }

  /** The hook touches no field besides the four relations it attaches. */
  lemma StateHookKeepsOwnFields(st: Store, ext: Outside, s: Record, depth: int, source: Collection, participant: Value, k: string)
    requires k !in STATE_RELATIONS
    ensures var out := ExpandParticipantState(st, ext, s, depth, source, participant);
      (k in out <==> k in s) && (k in s ==> out[k] == s[k])
  {
  }

  /** Otherwise the personalities listed (when the list is set and the read did not
      come from personalities) are the stored personalities with those ids, in
      storage order and not expanded back towards states. */
  lemma StateHookPersonalities(st: Store, ext: Outside, s: Record, depth: int, source: Collection, participant: Value)
    requires depth > 0 && Field(s, PERSONALITY_IDS) != Null && source != Personality
    ensures var out := ExpandParticipantState(st, ext, s, depth, source, participant);
      out["personalities"] == List(Objs(Select(Docs(st, Personality), [Term([ID], In(Items(Field(s, PERSONALITY_IDS))))])))
  {
    var q := [Term([ID], In(Items(Field(s, PERSONALITY_IDS))))];
    var rs := GetDocuments(st, Personality, q, Everything);
    var out := GetMultiple(st, ext, Personality, q, Everything, depth - 1, ParticipantState);
    assert forall i :: 0 <= i < |rs| ==> out[i] == ExpandPersonality(st, ext, rs[i], depth - 1, ParticipantState);
    assert out == Select(Docs(st, Personality), q);
  }

  /** The participations are asked for one level shallower, tagged as coming from
      participant states, unless the read came from them; the given participant is
      attached unless the read came from it. */
  lemma StateHookRelations(st: Store, ext: Outside, s: Record, depth: int, source: Collection, participant: Value)
    requires depth > 0
    ensures var out := ExpandParticipantState(st, ext, s, depth, source, participant);
      && (source != Participation ==>
            out["participations"] == List(Objs(ext(Request(Participation, [KeyIs("participant_state_id", Field(s, ID))], depth - 1, ParticipantState)))))
      && (source != Participant ==> out["participant"] == participant)
      && (source == Participant ==> ("participant" in out <==> "participant" in s))
  {
  }

  // ---------------------------------------------------------------------------
  // Validation and save

  predicate Distinct<T(==)>(xs: seq<T>) {
    forall i, j :: 0 <= i < j < |xs| ==> xs[i] != xs[j]
  }

  /** `_check_related_appearances`: no list, or as many appearances found as ids given. */
  predicate CheckAppearances(ext: Outside, ids: Value) {
    ids == Null || |ext(Request(Appearance, [Term([ID], In(Items(ids)))], 0, NoSource))| == |Items(ids)|
  }

  /** `_check_related_personalities`: no list, or as many personalities found as ids given. */
  predicate CheckPersonalities(st: Store, ext: Outside, ids: Value) {
    ids == Null || |GetMultiple(st, ext, Personality, [Term([ID], In(Items(ids)))], Everything, 0, NoSource)| == |Items(ids)|
  }

  /** `_check_related_participant` as evidently intended: no participant named, or
      the participant named exists. */
  predicate ParticipantGiven(st: Store, id: Value) {
    id == Null || GetDocument(st, Participant, id).Found?
  }

  /** `_check_related_fields`, checks in the source's order (appearances,
      personalities, participant), the first failure reported. */
  function CheckRelatedFields(st: Store, ext: Outside, s: Record): (err: Option<Error>)
    ensures err.None? <==>
      CheckAppearances(ext, Field(s, APPEARANCE_IDS)) && CheckPersonalities(st, ext, Field(s, PERSONALITY_IDS))
      && ParticipantGiven(st, Field(s, PARTICIPANT_ID))
    ensures err == Some(ParticipantMissing) ==> Field(s, PARTICIPANT_ID) != Null && GetDocument(st, Participant, Field(s, PARTICIPANT_ID)).NotFound?
  {
    if !CheckAppearances(ext, Field(s, APPEARANCE_IDS)) then Some(AppearancesMissing)
    else if !CheckPersonalities(st, ext, Field(s, PERSONALITY_IDS)) then Some(PersonalitiesMissing)
    else if !ParticipantGiven(st, Field(s, PARTICIPANT_ID)) then Some(ParticipantMissing)
    else None
  }

  /** `_check_related_fields` as written: the participant check compares the read
      result with the not-found class itself, never with an instance of it, so it
      always passes. */
  function CheckRelatedFieldsAsWritten(st: Store, ext: Outside, s: Record): (err: Option<Error>)
    ensures err != Some(ParticipantMissing)
  {
    if !CheckAppearances(ext, Field(s, APPEARANCE_IDS)) then Some(AppearancesMissing)
    else if !CheckPersonalities(st, ext, Field(s, PERSONALITY_IDS)) then Some(PersonalitiesMissing)
    else None
  }

  /** A state naming a participant that does not exist passes the check as written,
      and is refused by the intended one. */
  lemma MissingParticipantPassesAsWritten(st: Store, ext: Outside, s: Record)
    requires Field(s, APPEARANCE_IDS) == Null && Field(s, PERSONALITY_IDS) == Null
    requires Field(s, PARTICIPANT_ID) != Null && GetDocument(st, Participant, Field(s, PARTICIPANT_ID)).NotFound?
    ensures CheckRelatedFieldsAsWritten(st, ext, s) == None
    ensures CheckRelatedFields(st, ext, s) == Some(ParticipantMissing)
  {
  }

  /** The ids of the documents of `rs`. */
  function IdSet(rs: seq<Record>): (out: set<Value>)
    ensures forall v :: v in out <==> exists i :: 0 <= i < |rs| && Field(rs[i], ID) == v
  {
    if rs == [] then {}
    else
      var rest := IdSet(rs[1..]);
      assert forall v :: v in rest <==> exists i :: 1 <= i < |rs| && Field(rs[i], ID) == v by {
        forall v | v in rest ensures exists i :: 1 <= i < |rs| && Field(rs[i], ID) == v {
          var i :| 0 <= i < |rs| - 1 && Field(rs[1..][i], ID) == v;
          assert Field(rs[i + 1], ID) == v;
        }
        forall v | exists i :: 1 <= i < |rs| && Field(rs[i], ID) == v ensures v in rest {
          var i :| 1 <= i < |rs| && Field(rs[i], ID) == v;
          assert Field(rs[1..][i - 1], ID) == v;
        }
      }
      {Field(rs[0], ID)} + rest
  }

  lemma {:induction false} IdSetSize(rs: seq<Record>)
    requires UniqueIds(rs)
    ensures |IdSet(rs)| == |rs|
  {
    if rs != [] {
      assert UniqueIds(rs[1..]) by {
        forall i, j | 0 <= i < j < |rs| - 1 ensures Field(rs[1..][i], ID) != Field(rs[1..][j], ID) {
          assert Field(rs[i + 1], ID) != Field(rs[j + 1], ID);
        }
      }
      IdSetSize(rs[1..]);
      assert Field(rs[0], ID) !in IdSet(rs[1..]);
    }
  }

  function ValueSet(xs: seq<Value>): (out: set<Value>)
    ensures forall v :: v in out <==> v in xs
  {
    if xs == [] then {} else {xs[0]} + ValueSet(xs[1..])
  }

  lemma {:induction false} ValueSetSize(xs: seq<Value>)
    requires Distinct(xs)
    ensures |ValueSet(xs)| == |xs|
  {
    if xs != [] {
      assert Distinct(xs[1..]) by {
        forall i, j | 0 <= i < j < |xs| - 1 ensures xs[1..][i] != xs[1..][j] {
          assert xs[i + 1] != xs[j + 1];
        }
      }
      ValueSetSize(xs[1..]);
      assert xs[0] !in xs[1..];
    }
  }

  lemma {:induction false} SelectKeepsUniqueIds(rs: seq<Record>, q: Query)
    requires UniqueIds(rs)
    ensures UniqueIds(Select(rs, q))
  {
    if rs != [] {
      assert UniqueIds(rs[1..]) by {
        forall i, j | 0 <= i < j < |rs| - 1 ensures Field(rs[1..][i], ID) != Field(rs[1..][j], ID) {
          assert Field(rs[i + 1], ID) != Field(rs[j + 1], ID);
        }
      }
      SelectKeepsUniqueIds(rs[1..], q);
      var rest := Select(rs[1..], q);
      forall j | 0 <= j < |rest| ensures Field(rest[j], ID) != Field(rs[0], ID) {
        var k :| 0 <= k < |rs| - 1 && rs[1..][k] == rest[j];
        assert rs[k + 1] == rest[j];
      }
    }
  }

  /** An id filter matches a document with a reference id exactly when the id is
      one of those listed. */
  lemma IdInMatches(r: Record, xs: seq<Value>)
    requires Field(r, ID).Ref?
    ensures Matches(r, [Term([ID], In(xs))]) <==> Field(r, ID) in xs
  {
    var q := [Term([ID], In(xs))];
    assert q[0] == Term([ID], In(xs));
    assert [ID][1..] == [];
    assert Matches(r, q) <==> Reaches(Field(r, ID), [], In(xs));
  }

  /** The personality check counts the stored personalities an id filter selects. */
  lemma PersonalityCheckCounts(st: Store, ext: Outside, xs: seq<Value>)
    ensures CheckPersonalities(st, ext, List(xs)) <==> |Select(Docs(st, Personality), [Term([ID], In(xs))])| == |xs|
  {
    var q := [Term([ID], In(xs))];
    assert |GetMultiple(st, ext, Personality, q, Everything, 0, NoSource)| == |GetDocuments(st, Personality, q, Everything)|;
  }

  /** Every id selected is a listed one. */
  lemma SelectedIdsListed(docs: seq<Record>, xs: seq<Value>, n: Id)
    requires IdsBelow(docs, n)
    ensures IdSet(Select(docs, [Term([ID], In(xs))])) <= ValueSet(xs)
  {
    var found := Select(docs, [Term([ID], In(xs))]);
    forall v | v in IdSet(found) ensures v in ValueSet(xs) {
      var i :| 0 <= i < |found| && Field(found[i], ID) == v;
      var k :| 0 <= k < |docs| && docs[k] == found[i];
      IdInMatches(found[i], xs);
    }
  }

  /** A listed id that is stored is selected. */
  lemma StoredIdSelected(docs: seq<Record>, xs: seq<Value>, n: Id, v: Value)
    requires IdsBelow(docs, n) && v in xs && FindById(docs, v).Found?
    ensures v in IdSet(Select(docs, [Term([ID], In(xs))]))
  {
    var q := [Term([ID], In(xs))];
    var r := FindById(docs, v).value;
    var k :| 0 <= k < |docs| && docs[k] == r;
    IdInMatches(r, xs);
    SelectComplete(docs, q, r);
    var j :| 0 <= j < |Select(docs, q)| && Select(docs, q)[j] == r;
  }

  lemma AllStoredAllSelected(docs: seq<Record>, xs: seq<Value>, n: Id)
    requires IdsBelow(docs, n)
    requires forall i :: 0 <= i < |xs| ==> FindById(docs, xs[i]).Found?
    ensures ValueSet(xs) <= IdSet(Select(docs, [Term([ID], In(xs))]))
  {
    forall v | v in ValueSet(xs) ensures v in IdSet(Select(docs, [Term([ID], In(xs))])) {
      var i :| 0 <= i < |xs| && xs[i] == v;
      StoredIdSelected(docs, xs, n, v);
    }
  }

  /** A listed id that is not stored is not selected. */
  lemma MissingIdNotSelected(docs: seq<Record>, xs: seq<Value>, v: Value)
    requires FindById(docs, v).NotFound?
    ensures v !in IdSet(Select(docs, [Term([ID], In(xs))]))
  {
  }

  /** Over documents with distinct reference ids and a list naming no id twice, the
      id filter selects as many documents as there are ids exactly when every id
      is stored. */
  lemma CountMeansAllExist(docs: seq<Record>, xs: seq<Value>, n: Id)
    requires Keyed(docs, n) && Distinct(xs)
    ensures |Select(docs, [Term([ID], In(xs))])| == |xs| <==>
      forall i :: 0 <= i < |xs| ==> FindById(docs, xs[i]).Found?
  {
    var found := Select(docs, [Term([ID], In(xs))]);
    var selected, listed := IdSet(found), ValueSet(xs);
    SelectKeepsUniqueIds(docs, [Term([ID], In(xs))]);
    IdSetSize(found);
    ValueSetSize(xs);
    SelectedIdsListed(docs, xs, n);
    SubsetSize(selected, listed);
    if forall i :: 0 <= i < |xs| ==> FindById(docs, xs[i]).Found? {
      AllStoredAllSelected(docs, xs, n);
    } else {
      var i :| 0 <= i < |xs| && FindById(docs, xs[i]).NotFound?;
      MissingIdNotSelected(docs, xs, xs[i]);
      assert xs[i] in listed - selected;
    }
  }

  /** A subset as large as its superset is the superset. */
  lemma SubsetSize(a: set<Value>, b: set<Value>)
    requires a <= b
    ensures |a| == |b| <==> a == b
  {
    if |a| == |b| {
      assert |b - a| == |b| - |a|;
    }
  }

  /** For a collection kept by the gateway and a list naming no id twice, the
      personality check passes exactly when every listed id is a stored
      personality. */
  lemma PersonalityCheckMeansAllExist(st: Store, ext: Outside, xs: seq<Value>, n: Id)
    requires Keyed(Docs(st, Personality), n) && Distinct(xs)
    ensures CheckPersonalities(st, ext, List(xs)) <==>
      forall i :: 0 <= i < |xs| ==> GetDocument(st, Personality, xs[i]).Found?
  {
    PersonalityCheckCounts(st, ext, xs);
    CountMeansAllExist(Docs(st, Personality), xs, n);
  }

  /** `save_participant_state`: a failed check is returned with nothing written;
      otherwise the state is appended to its participant. The check is the one as
      written, so a state naming a missing participant gets past it and the append
      raises. */
  method Save(db: Gateway, ext: Outside, s: Record) returns (out: Reply<Record>)
    requires db.Valid()
    modifies db
    ensures db.Valid()
    ensures match CheckRelatedFieldsAsWritten(old(db.docs), ext, s)
      case Some(e) => out == Invalid(e) && db.docs == old(db.docs) && db.nextId == old(db.nextId)
      case None => db.nextId == old(db.nextId) + 1 && Participants.StateAdded(old(db.docs), old(db.nextId), s, db.docs, out)
    ensures (CheckRelatedFieldsAsWritten(old(db.docs), ext, s).None?
             && GetDocument(old(db.docs), Participant, Field(s, PARTICIPANT_ID)).NotFound?) ==>
      out == Invalid(Raised) && db.docs == old(db.docs)
  {
    var err := CheckRelatedFieldsAsWritten(db.docs, ext, s);
    if err.Some? {
      return Invalid(err.value);
    }
    out := Participants.AddState(db, ext, s);
  }
}
