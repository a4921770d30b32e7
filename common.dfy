/** Values, records, queries and result types shared by every service.
    A stored document is a dictionary from field names to JSON-like values; the
    services read and write these dictionaries, so the model does too. */
module Common {

  /** Document identifiers. The storage gateway allocates them from a counter. */
  type Id = nat

  /** The collection names. The services use the same names as direction tags
      (the `source` argument of every read); `NoSource` is the empty tag. */
  datatype Collection =
    | Activity | ActivityExecution | Appearance | Arrangement | Experiment
    | Measure | MeasureName | Participant | ParticipantState | Participation
    | Personality | Scenario | TimeSeries | NoSource

  /** A field value of a stored or returned document. `Day` is a date without a
      time of day, `Moment` a date and time (seconds), `Absent` the not-found
      marker that a failed lookup leaves inside a response. */
  datatype Value =
    | Null
    | Number(x: real)
    | Text(s: string)
    | Ref(id: Id)
    | Day(day: int)
    | Moment(seconds: int)
    | List(items: seq<Value>)
    | Obj(fields: map<string, Value>)
    | Absent(key: Value)

  type Record = map<string, Value>

  // Field names the services read and write.
  const ID := "id"
  const ACTIVITY_EXECUTIONS := "activity_executions"
  const PARTICIPANT_STATES := "participant_states"
  const EXPERIMENT_ID := "experiment_id"
  const ARRANGEMENT_ID := "arrangement_id"
  const ACTIVITY_ID := "activity_id"
  const MEASURE_NAME_ID := "measure_name_id"
  const PARTICIPANT_ID := "participant_id"
  const PERSONALITY_IDS := "personality_ids"
  const APPEARANCE_IDS := "appearance_ids"

  /** The value stored under `k`; a missing key reads as null. */
  function Field(r: Record, k: string): Value {
    if k in r then r[k] else Null
  }

  /** The dictionary inside an object value; anything else reads as an empty dictionary. */
  function AsRecord(v: Value): Record {
    if v.Obj? then v.fields else map[]
  }

  /** The elements of a list value; anything else reads as an empty list. */
  function Items(v: Value): seq<Value> {
    if v.List? then v.items else []
  }

  /** Dictionaries as object values, one for one. */
  function Objs(rs: seq<Record>): (vs: seq<Value>)
    ensures |vs| == |rs|
    ensures forall i :: 0 <= i < |rs| ==> vs[i] == Obj(rs[i])
  {
    seq(|rs|, i requires 0 <= i < |rs| => Obj(rs[i]))
  }

  /** `r` without the key `k`, as Python's `del r[k]` leaves it. */
  function Without(r: Record, k: string): (out: Record)
    ensures k !in out
    ensures forall j :: j in r && j != k ==> j in out && out[j] == r[j]
    ensures forall j :: j in out ==> j in r
  {
    map j | j in r && j != k :: r[j]
  }

  datatype Option<T> = None | Some(value: T)

  /** The result of a read: the document, or the not-found marker carrying the key asked for. */
  datatype Lookup<T> = Found(value: T) | NotFound(key: Value)

  /** A read result as it is placed inside a response. */
  function AsValue(l: Lookup<Record>): Value {
    match l
    case Found(r) => Obj(r)
    case NotFound(k) => Absent(k)
  }

  /** The validation failures the services report; `Raised` marks a point where the
      source raises an exception (a missing key, a failed list lookup), after which
      nothing more is written. */
  datatype Error =
    | ActivityMissing | ArrangementMissing | ExperimentMissing | MeasureNameMissing
    | AppearancesMissing | PersonalitiesMissing | ParticipantMissing
    | OutOfRange | IdenticalIds | Raised

  /** The result of an operation that writes: its output, a not-found marker, or a
      validation error (returned, never raised). */
  datatype Reply<T> = Done(value: T) | Missing(key: Value) | Invalid(error: Error)

  /** Query filters as the services build them for the document store. A term
      names a dotted field path ("activity_executions.id" is
      ["activity_executions", "id"]) and a condition: equality with a value (which
      for an array field means "contains"), or membership in a list of values
      (the "id is one of" filter). */
  datatype Cond = Is(v: Value) | In(vs: seq<Value>)
  datatype Term = Term(path: seq<string>, cond: Cond)
  type Query = seq<Term>

  /** The one-field equality filter `{k: v}`. */
  function KeyIs(k: string, v: Value): Term {
    Term([k], Is(v))
  }

  predicate Satisfies(v: Value, c: Cond) {
    match c
    case Is(x) => v == x || x in Items(v)
    case In(xs) => v in xs || exists i :: 0 <= i < |Items(v)| && Items(v)[i] in xs
  }

  /** Whether the value reached along `path` from `v` satisfies `c`; an array met on
      the way is searched element by element, as the document store does. */
  predicate Reaches(v: Value, path: seq<string>, c: Cond)
    decreases |path|, v
  {
    if path == [] then Satisfies(v, c)
    else if v.List? then exists i :: 0 <= i < |v.items| && Reaches(v.items[i], path, c)
    else Reaches(Field(AsRecord(v), path[0]), path[1..], c)
  }

  predicate Holds(r: Record, t: Term) {
    Reaches(Obj(r), t.path, t.cond)
  }

  /** A document matches a query when it satisfies every term. */
  predicate Matches(r: Record, q: Query) {
    forall i :: 0 <= i < |q| ==> Holds(r, q[i])
  }

  /** A one-field equality filter matches a document exactly when the field holds
      the value or is an array containing it. */
  lemma KeyIsMatches(r: Record, k: string, v: Value)
    ensures Matches(r, [KeyIs(k, v)]) <==> Satisfies(Field(r, k), Is(v))
  {
    var q := [KeyIs(k, v)];
    assert q[0] == KeyIs(k, v);
    assert Matches(r, q) <==> Holds(r, q[0]);
    assert [k][1..] == [];
    assert Holds(r, q[0]) == Reaches(Field(r, k), [], Is(v));
  }

  /** `i` is the position of the first document of `rs` matching `q`. */
  predicate FirstMatch(rs: seq<Record>, q: Query, i: nat) {
    i < |rs| && Matches(rs[i], q) && forall j :: 0 <= j < i ==> !Matches(rs[j], q)
  }

  /** The documents of `rs` that match `q`, in their original order. */
  function Select(rs: seq<Record>, q: Query): (out: seq<Record>)
    ensures |out| <= |rs|
    ensures forall i :: 0 <= i < |out| ==> out[i] in rs && Matches(out[i], q)
  {
    if rs == [] then []
    else if Matches(rs[0], q) then [rs[0]] + Select(rs[1..], q)
    else Select(rs[1..], q)
  }

  lemma {:induction false} SelectComplete(rs: seq<Record>, q: Query, r: Record)
    requires r in rs && Matches(r, q)
    ensures r in Select(rs, q)
  {
    if rs[0] != r {
      SelectComplete(rs[1..], q, r);
    }
  }

  lemma {:induction false} SelectAll(rs: seq<Record>)
    ensures Select(rs, []) == rs
  {
    if rs != [] {
      SelectAll(rs[1..]);
    }
  }

  /** The first document of `rs` matching `q` is the first document `Select` keeps. */
  lemma {:induction false} SelectFirst(rs: seq<Record>, q: Query, i: nat)
    requires i < |rs| && Matches(rs[i], q)
    requires forall j :: 0 <= j < i ==> !Matches(rs[j], q)
    ensures Select(rs, q) != [] && Select(rs, q)[0] == rs[i]
  {
    if i > 0 {
      SelectFirst(rs[1..], q, i - 1);
    }
  }

  /** `Select` finds nothing exactly when no document matches. */
  lemma SelectEmpty(rs: seq<Record>, q: Query)
    ensures Select(rs, q) == [] <==> forall i :: 0 <= i < |rs| ==> !Matches(rs[i], q)
  {
    if exists i :: 0 <= i < |rs| && Matches(rs[i], q) {
      var i :| 0 <= i < |rs| && Matches(rs[i], q);
      SelectComplete(rs, q, rs[i]);
    }
  }
}
