/** The personality service: two kinds of personality (big five and PANAS)
    sharing one collection, range-checked saves and updates, reads that tell the
    kinds apart, and the hook that attaches the participant states listing a
    personality. */
module Personalities {
  import opened Common
  import opened Storage
  import opened Expansion
  import Mixin
  import ParticipantStates

  datatype Kind = BigFive | Panas

  /** The kind of a personality record: PANAS exactly when it has a negative affect. */
  function KindOf(r: Record): (k: Kind)
    ensures k == Panas <==> "negative_affect" in r
  {
    if "negative_affect" in r then Panas else BigFive
  }

  /** A trait value between 0 and 1, both included. */
  predicate InRange(v: Value) {
    v.Number? && 0.0 <= v.x <= 1.0
  }

  /** The range guard of the big-five save and update: all five traits. */
  predicate BigFiveInRange(r: Record) {
    InRange(Field(r, "agreeableness")) && InRange(Field(r, "conscientiousness"))
    && InRange(Field(r, "extroversion")) && InRange(Field(r, "neuroticism")) && InRange(Field(r, "openess"))
  }

  /** The range guard of the PANAS save and update: both affects. */
  predicate PanasInRange(r: Record) {
    InRange(Field(r, "negative_affect")) && InRange(Field(r, "positive_affect"))
  }

  predicate InRangeFor(k: Kind, r: Record) {
    match k
    case BigFive => BigFiveInRange(r)
    case Panas => PanasInRange(r)
  }

  /** `get_single`: the not-found marker passes through; a found personality comes
      with its kind. */
  function GetPersonality(st: Store, ext: Outside, key: Value, depth: int, source: Collection): Lookup<(Kind, Record)> {
    match GetSingleDict(st, ext, Personality, key, depth, source)
    case NotFound(k) => NotFound(k)
    case Found(r) => Found((KindOf(r), r))
  }

  /** A read finds exactly the stored personalities; the kind it reports is that of
      the stored record (the hook adds no negative affect), and the record carries
      the id asked for. */
  lemma GetPersonalityResult(st: Store, ext: Outside, key: Value, depth: int, source: Collection)
    ensures GetPersonality(st, ext, key, depth, source).NotFound? <==> GetDocument(st, Personality, key).NotFound?
    ensures GetPersonality(st, ext, key, depth, source).NotFound? ==> GetPersonality(st, ext, key, depth, source).key == key
    ensures GetDocument(st, Personality, key).Found? ==>
      var got := GetPersonality(st, ext, key, depth, source).value;
      got.0 == KindOf(GetDocument(st, Personality, key).value) && Field(got.1, ID) == key
  {
    Mixin.GetSingleDictResult(st, ext, Personality, key, depth, source);
    if GetDocument(st, Personality, key).Found? {
      Mixin.ExpandKeepsOwnFields(st, ext, Personality, GetDocument(st, Personality, key).value, depth, source, "negative_affect");
    }
  }

  /** A plain read of many personalities gives the matching stored records. */
  lemma ReadAtDepthZero(st: Store, ext: Outside, q: Query)
    ensures Expansion.GetMultiple(st, ext, Personality, q, Everything, 0, NoSource) == Select(Docs(st, Personality), q)
  {
    Mixin.GetMultipleInStorageOrder(st, ext, Personality, q, Everything, 0, NoSource);
  }

  /** `get_personalities`: the matching personalities, each with its kind. */
  method GetPersonalities(db: Gateway, ext: Outside, q: Query) returns (out: seq<(Kind, Record)>)
    ensures |out| == |Select(Docs(db.docs, Personality), q)|
    ensures forall i :: 0 <= i < |out| ==>
      out[i].1 == Select(Docs(db.docs, Personality), q)[i] && out[i].0 == KindOf(out[i].1)
  {
    var results := Mixin.GetMultiple(db, ext, Personality, q, Everything, 0, NoSource);
    ReadAtDepthZero(db.docs, ext, q);
    out := [];
    var i := 0;
    while i < |results|
      invariant 0 <= i <= |results|
      invariant |out| == i
      invariant forall j :: 0 <= j < i ==> out[j] == (KindOf(results[j]), results[j])
    {
      out := out + [(KindOf(results[i]), results[i])];
      i := i + 1;
    }
  }

  /** The personality service. `model_out_class` is the one field its methods
      update: the saves set it to the kind they store. */
  class Service {
    var outKind: Option<Kind>

    constructor ()
      ensures outKind == None
    {
      outKind := None;
    }

    /** `save_personality_big_five` and `save_personality_panas`: a trait out of range
        is returned as an error and nothing is created; otherwise the output kind is
        set and the personality created under a fresh id. */
    method Save(db: Gateway, ext: Outside, kind: Kind, r: Record) returns (out: Reply<Record>)
      requires db.Valid()
      modifies this, db
      ensures db.Valid()
      ensures !InRangeFor(kind, r) ==>
        out == Invalid(OutOfRange) && db.docs == old(db.docs) && db.nextId == old(db.nextId) && outKind == old(outKind)
      ensures InRangeFor(kind, r) ==>
        outKind == Some(kind) && db.nextId == old(db.nextId) + 1
        && db.docs == old(db.docs)[Personality := Docs(old(db.docs), Personality) + [Mixin.Normalized(r)[ID := Ref(old(db.nextId))]]]
        && out == Done(Mixin.Normalized(r)[ID := Ref(old(db.nextId))])
    {
      if !InRangeFor(kind, r) {
        return Invalid(OutOfRange);
      }
      outKind := Some(kind);
      var created := Mixin.Create(db, ext, Personality, r);
      out := Done(created.value);
    }

    /** `update_personality_big_five` and `update_personality_panas`: a trait out of
        range is an error; then a missing personality, or one of the other kind, is
        not found; each writes nothing. Otherwise the payload is written as given
        (no date normalisation) and the personality read back is returned. */
    method Update(db: Gateway, ext: Outside, kind: Kind, key: Value, r: Record) returns (out: Reply<(Kind, Record)>)
      requires db.Valid()
      modifies db
      ensures db.Valid() && db.nextId == old(db.nextId)
      ensures !InRangeFor(kind, r) ==> out == Invalid(OutOfRange) && db.docs == old(db.docs)
      ensures InRangeFor(kind, r) && GetDocument(old(db.docs), Personality, key).NotFound? ==>
        out == Missing(key) && db.docs == old(db.docs)
      ensures (InRangeFor(kind, r) && GetDocument(old(db.docs), Personality, key).Found?
               && KindOf(GetDocument(old(db.docs), Personality, key).value) != kind) ==>
        out == Missing(key) && db.docs == old(db.docs)
      ensures (InRangeFor(kind, r) && GetDocument(old(db.docs), Personality, key).Found?
               && KindOf(GetDocument(old(db.docs), Personality, key).value) == kind) ==>
        db.docs == Replaced(old(db.docs), Personality, key, r)
        && out == Done((KindOf(r[ID := key]), r[ID := key]))
    {
      if !InRangeFor(kind, r) {
        return Invalid(OutOfRange);
      }
      var existing := GetPersonality(db.docs, ext, key, 0, NoSource);
      GetPersonalityResult(db.docs, ext, key, 0, NoSource);
      if existing.NotFound? {
        return Missing(key);
      }
      if existing.value.0 != kind {
        return Missing(key);
      }
      ReplaceThenFind(Docs(db.docs, Personality), key, r);
      db.UpdateDocument(Personality, key, r);
      var reread := GetPersonality(db.docs, ext, key, 0, NoSource);
      Mixin.ExpandAtDepthZero(db.docs, ext, Personality, r[ID := key], 0, NoSource);
      out := Done(reread.value);
    }
  }

  /** A PANAS payload passing its guard is of the PANAS kind, so a successful
      PANAS update reads back as PANAS. */
  lemma PanasPayloadIsPanas(key: Value, r: Record)
    requires PanasInRange(r)
    ensures KindOf(r[ID := key]) == Panas
  {
  }

  // ---------------------------------------------------------------------------
  // The hook

  /** The hook does nothing once the depth is used up, nor for a read coming from
      participant states. */
  lemma PersonalityHookSkips(st: Store, ext: Outside, p: Record, depth: int, source: Collection)
    requires depth <= 0 || source == ParticipantState
    ensures ExpandPersonality(st, ext, p, depth, source) == p
  {
  }

  /** Otherwise the participant states attached are, in order, what the
      participant-state `get_multiple` returns as written, read one level
      shallower and tagged as coming from personalities; each of them is, by id,
      a state of a stored participant holding a state that lists this
      personality. */
  lemma PersonalityHookStates(st: Store, ext: Outside, p: Record, depth: int, source: Collection)
    requires depth > 0 && source != ParticipantState
    ensures var out := ExpandPersonality(st, ext, p, depth, source);
      var q := [KeyIs(PERSONALITY_IDS, Field(p, ID))];
      var states := GetMultipleStatesAsWritten(st, ext, q, depth - 1, Personality);
      out[PARTICIPANT_STATES] == List(Objs(states))
      && forall i :: 0 <= i < |states| ==> ParticipantStates.HeldBySelected(st, q, states[i])
  {
    var q := [KeyIs(PERSONALITY_IDS, Field(p, ID))];
    var states := GetMultipleStatesAsWritten(st, ext, q, depth - 1, Personality);
    forall i | 0 <= i < |states| ensures ParticipantStates.HeldBySelected(st, q, states[i]) {
      ParticipantStates.GetMultipleStatesAsWrittenHeld(st, ext, q, depth - 1, Personality, states[i]);
    }
  }

  /** The store of the example below: personality 9, and one participant holding
      state 1, which lists it, and state 2, which lists none. */
  function ListedAndUnlisted(): Store {
    map[Personality := [map[ID := Ref(9)]],
        Participant := [map[ID := Ref(0), PARTICIPANT_STATES := List([
          Obj(map[ID := Ref(1), PERSONALITY_IDS := List([Ref(9)])]),
          Obj(map[ID := Ref(2), PERSONALITY_IDS := List([])])])]]]
  }

  /** That participant is the one a read of the states listing personality 9
      fetches. */
  lemma ListedAndUnlistedHolderMatches()
    ensures var st := ListedAndUnlisted();
      Select(Docs(st, Participant), Rewrite([KeyIs(PERSONALITY_IDS, Ref(9))], PARTICIPANT_STATES)) == [st[Participant][0]]
  {
    var st := ListedAndUnlisted();
    var holder := st[Participant][0];
    var t := KeyIs(PERSONALITY_IDS, Ref(9));
    var rq := Rewrite([t], PARTICIPANT_STATES);
    assert [PERSONALITY_IDS][1..] == [];
    RewrittenTermHolds(holder, PARTICIPANT_STATES, t);
    assert Reaches(Field(holder, PARTICIPANT_STATES).items[0], [PERSONALITY_IDS], Is(Ref(9)));
    assert Matches(holder, rq);
    assert [holder][1..] == [];
  }

  /** As written, reading personality 9 at depth 1 attaches both states of that
      participant, the one that does not list it included. */
  lemma PersonalityHookAttachesUnlisted(ext: Outside)
    ensures var p := map[ID := Ref(9)];
      ExpandPersonality(ListedAndUnlisted(), ext, p, 1, NoSource)[PARTICIPANT_STATES] ==
        List([Obj(map[ID := Ref(1), PERSONALITY_IDS := List([Ref(9)])]), Obj(map[ID := Ref(2), PERSONALITY_IDS := List([])])])
  {
    var rq := Rewrite([KeyIs(PERSONALITY_IDS, Ref(9))], PARTICIPANT_STATES);
    ListedAndUnlistedHolderMatches();
    ParticipantStates.ParticipantsReadRaw(ListedAndUnlisted(), ext, rq, StateProjectionAsWritten(), -1);
  }
}
