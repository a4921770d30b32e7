/** The participant service's handling of the participant states embedded in each
    participant document (append, overwrite a slot, delete a slot, find a slot),
    and the participant hook, which expands the embedded states. */
module Participants {
  import opened Common
  import opened Storage
  import opened Expansion
  import opened Edits
  import Mixin

  /** What `add_participant_state` does: the state, under the fresh id `n`, goes at
      the end of the array of the participant it names, and the participant is
      written back through the mixin's `update` (so its date-only fields move to
      midnight). A participant that is not found, or whose array is present but not
      a list, makes the source raise before anything is written. */
  predicate StateAdded(old_st: Store, n: Id, s: Record, st: Store, out: Reply<Record>) {
    var pid := Field(s, PARTICIPANT_ID);
    match GetDocument(old_st, Participant, pid)
    case NotFound(_) => out == Invalid(Raised) && st == old_st
    case Found(p) =>
      if PARTICIPANT_STATES in p && !p[PARTICIPANT_STATES].List? then out == Invalid(Raised) && st == old_st
      else
        var added := s[ID := Ref(n)];
        out == Done(added)
        && st == Replaced(old_st, Participant, pid, Mixin.Normalized(Appended(p, PARTICIPANT_STATES, Obj(added))))
  }

  /** `add_participant_state`. */
  method AddState(db: Gateway, ext: Outside, s: Record) returns (out: Reply<Record>)
    requires db.Valid()
    modifies db
    ensures db.Valid() && db.nextId == old(db.nextId) + 1
    ensures StateAdded(old(db.docs), old(db.nextId), s, db.docs, out)
  {
    var n := db.NewId();
    var added := s[ID := Ref(n)];
    var pid := Field(s, PARTICIPANT_ID);
    var participant := GetSingleDict(db.docs, ext, Participant, pid, 0, NoSource);
    Mixin.GetSingleDictResult(db.docs, ext, Participant, pid, 0, NoSource);
    if participant.NotFound? {
      return Invalid(Raised);
    }
    Mixin.ExpandAtDepthZero(db.docs, ext, Participant, GetDocument(db.docs, Participant, pid).value, 0, NoSource);
    var p := participant.value;
    if PARTICIPANT_STATES in p && !p[PARTICIPANT_STATES].List? {
      return Invalid(Raised);
    }
    var written := Mixin.Update(db, ext, Participant, pid, Appended(p, PARTICIPANT_STATES, Obj(added)));
    out := Done(added);
  }

  /** The participant written back by `add_participant_state` holds its old states,
      unchanged and in order, followed by exactly one more: the new state. */
  lemma AddedStateGoesLast(p: Record, added: Record)
    ensures var written := Mixin.Normalized(Appended(p, PARTICIPANT_STATES, Obj(added)));
      var before := Items(Field(p, PARTICIPANT_STATES));
      PARTICIPANT_STATES in written && written[PARTICIPANT_STATES].List?
      && |Items(written[PARTICIPANT_STATES])| == |before| + 1
      && Items(written[PARTICIPANT_STATES])[..|before|] == before
      && Items(written[PARTICIPANT_STATES])[|before|] == Obj(added)
  {
    var before := Items(Field(p, PARTICIPANT_STATES));
    var appended := Appended(p, PARTICIPANT_STATES, Obj(added));
    assert (before + [Obj(added)])[..|before|] == before;
    assert Mixin.Normalized(appended)[PARTICIPANT_STATES] == appended[PARTICIPANT_STATES];
  }

  /** The slot finder before an append, when no state has the new id, finds the new
      state in the last slot, and deleting that slot gives the states back: a
      removal undoes an addition. */
  lemma {:induction false} RemoveUndoesAdd(states: seq<Value>, added: Record)
    requires forall j :: 0 <= j < |states| ==> Field(AsRecord(states[j]), ID) != Field(added, ID)
    ensures IndexById(states + [Obj(added)], Field(added, ID)) == Some(|states|)
    ensures DeleteAt(states + [Obj(added)], |states|) == states
  {
    var grown := states + [Obj(added)];
    assert grown[..|states|] == states;
    if states != [] {
      assert grown[1..] == states[1..] + [Obj(added)];
      RemoveUndoesAdd(states[1..], added);
    } else {
      assert AsRecord(grown[0]) == added;
    }
  }

  /** What `update_participant_state` evidently intends: the participant it names
      not found, or holding no state with the id, gives the not-found marker with
      the state's id and writes nothing; otherwise the first slot holding that id
      is overwritten by the new state (the array keeps its length and every other
      slot) and the participant written back. An array that is not a list makes the
      source raise. */
  predicate StateReplaced(old_st: Store, key: Value, s: Record, st: Store, out: Reply<Record>) {
    var pid := Field(s, PARTICIPANT_ID);
    match GetDocument(old_st, Participant, pid)
    case NotFound(_) => out == Missing(key) && st == old_st
    case Found(p) =>
      if !Field(p, PARTICIPANT_STATES).List? then out == Invalid(Raised) && st == old_st
      else
        var states := Items(Field(p, PARTICIPANT_STATES));
        match IndexById(states, key)
        case None => out == Missing(key) && st == old_st
        case Some(i) =>
          out == Done(s)
          && st == Replaced(old_st, Participant, pid, Mixin.Normalized(p[PARTICIPANT_STATES := List(states[i := Obj(s)])]))
  }

  /** `update_participant_state` with the write it evidently intends. */
  method UpdateState(db: Gateway, ext: Outside, key: Value, s: Record) returns (out: Reply<Record>)
    requires db.Valid()
    modifies db
    ensures db.Valid() && db.nextId == old(db.nextId)
    ensures StateReplaced(old(db.docs), key, s, db.docs, out)
  {
    var pid := Field(s, PARTICIPANT_ID);
    var participant := GetSingleDict(db.docs, ext, Participant, pid, 0, NoSource);
    Mixin.GetSingleDictResult(db.docs, ext, Participant, pid, 0, NoSource);
    if participant.NotFound? {
      return Missing(key);
    }
    Mixin.ExpandAtDepthZero(db.docs, ext, Participant, GetDocument(db.docs, Participant, pid).value, 0, NoSource);
    var p := participant.value;
    if !Field(p, PARTICIPANT_STATES).List? {
      return Invalid(Raised);
    }
    var states := Items(Field(p, PARTICIPANT_STATES));
    var slot := IndexById(states, key);
    if slot.None? {
      return Missing(key);
    }
    var written := Mixin.Update(db, ext, Participant, pid, p[PARTICIPANT_STATES := List(states[slot.value := Obj(s)])]);
    out := Done(s);
  }

  /** `update_participant_state` as written: the participant read is a plain
      dictionary and the mixin's `update` asks it for its model form, which a
      dictionary does not have, so every call that gets that far raises and nothing
      is written. The not-found answers are those of `UpdateState`. */
  method UpdateStateAsWritten(db: Gateway, ext: Outside, key: Value, s: Record) returns (out: Reply<Record>)
    requires db.Valid()
    modifies db
    ensures db.docs == old(db.docs) && db.nextId == old(db.nextId)
    ensures !out.Done?
    ensures !out.Invalid? ==> StateReplaced(old(db.docs), key, s, db.docs, out)
    ensures out.Invalid? <==>
      (GetDocument(old(db.docs), Participant, Field(s, PARTICIPANT_ID)).Found?
       && var p := GetDocument(old(db.docs), Participant, Field(s, PARTICIPANT_ID)).value;
          !Field(p, PARTICIPANT_STATES).List? || IndexById(Items(Field(p, PARTICIPANT_STATES)), key).Some?)
    ensures out.Invalid? ==> out == Invalid(Raised)
  {
    var pid := Field(s, PARTICIPANT_ID);
    var participant := GetSingleDict(db.docs, ext, Participant, pid, 0, NoSource);
    Mixin.GetSingleDictResult(db.docs, ext, Participant, pid, 0, NoSource);
    if participant.NotFound? {
      return Missing(key);
    }
    Mixin.ExpandAtDepthZero(db.docs, ext, Participant, GetDocument(db.docs, Participant, pid).value, 0, NoSource);
    var p := participant.value;
    if !Field(p, PARTICIPANT_STATES).List? {
      return Invalid(Raised);
    }
    var slot := IndexById(Items(Field(p, PARTICIPANT_STATES)), key);
    if slot.None? {
      return Missing(key);
    }
    out := Invalid(Raised);
  }

  /** What `remove_participant_state` does: the not-found cases as for an update;
      otherwise the first slot holding the state's id is deleted (the others keep
      their order), the participant written back and the given state returned. */
  predicate StateRemoved(old_st: Store, s: Record, st: Store, out: Reply<Record>) {
    var pid := Field(s, PARTICIPANT_ID);
    var key := Field(s, ID);
    match GetDocument(old_st, Participant, pid)
    case NotFound(_) => out == Missing(key) && st == old_st
    case Found(p) =>
      if !Field(p, PARTICIPANT_STATES).List? then out == Invalid(Raised) && st == old_st
      else
        var states := Items(Field(p, PARTICIPANT_STATES));
        match IndexById(states, key)
        case None => out == Missing(key) && st == old_st
        case Some(i) =>
          out == Done(s)
          && st == Replaced(old_st, Participant, pid, Mixin.Normalized(p[PARTICIPANT_STATES := List(DeleteAt(states, i))]))
  }

  /** `remove_participant_state`. */
  method RemoveState(db: Gateway, ext: Outside, s: Record) returns (out: Reply<Record>)
    requires db.Valid()
    modifies db
    ensures db.Valid() && db.nextId == old(db.nextId)
    ensures StateRemoved(old(db.docs), s, db.docs, out)
  {
    var pid := Field(s, PARTICIPANT_ID);
    var key := Field(s, ID);
    var participant := GetSingleDict(db.docs, ext, Participant, pid, 0, NoSource);
    Mixin.GetSingleDictResult(db.docs, ext, Participant, pid, 0, NoSource);
    if participant.NotFound? {
      return Missing(key);
    }
    Mixin.ExpandAtDepthZero(db.docs, ext, Participant, GetDocument(db.docs, Participant, pid).value, 0, NoSource);
    var p := participant.value;
    if !Field(p, PARTICIPANT_STATES).List? {
      return Invalid(Raised);
    }
    var states := Items(Field(p, PARTICIPANT_STATES));
    var slot := IndexById(states, key);
    if slot.None? {
      return Missing(key);
    }
    var written := Mixin.Update(db, ext, Participant, pid, p[PARTICIPANT_STATES := List(DeleteAt(states, slot.value))]);
    out := Done(s);
  }

  // ---------------------------------------------------------------------------
  // The hook

  /** The hook does nothing once the depth is used up. */
  lemma ParticipantHookAtDepthZero(st: Store, ext: Outside, p: Record, depth: int, source: Collection)
    requires depth <= 0
    ensures ExpandParticipant(st, ext, p, depth, source) == p
  {
  }

  /** The hook does nothing for a read coming from participant states, nor for a
      participant without states. */
  lemma ParticipantHookSkipsStates(st: Store, ext: Outside, p: Record, depth: int, source: Collection)
    requires source == ParticipantState || Field(p, PARTICIPANT_STATES) == Null
    ensures ExpandParticipant(st, ext, p, depth, source) == p
  {
  }

  /** Otherwise every embedded state is expanded in its slot by the participant-state
      hook at `depth - 1`, tagged as coming from the participant: the array keeps
      its length, and each slot keeps its id. */
  lemma ParticipantHookStates(st: Store, ext: Outside, p: Record, depth: int, source: Collection)
    requires depth > 0 && source != ParticipantState && Field(p, PARTICIPANT_STATES) != Null
    ensures var states := Items(p[PARTICIPANT_STATES]);
      var out := ExpandParticipant(st, ext, p, depth, source);
      var expanded := Items(out[PARTICIPANT_STATES]);
      |expanded| == |states|
      && (forall j :: 0 <= j < |states| ==>
            expanded[j] == Obj(ExpandParticipantState(st, ext, AsRecord(states[j]), depth - 1, Participant, Obj(p)))
            && Field(AsRecord(expanded[j]), ID) == Field(AsRecord(states[j]), ID))
      && forall k :: k in p && k != PARTICIPANT_STATES ==> k in out && out[k] == p[k]
  {
  }
}
