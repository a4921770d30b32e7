/** In-place edits the services make to documents they have fetched: copying the
    fields of a payload onto a document, and the list operations on embedded
    arrays (find by id, append, overwrite a slot, delete a slot). */
module Edits {
  import opened Common

  /** `patch` laid over `r`: the patch's fields take its values, every other field keeps its own. */
  function Patched(r: Record, patch: Record): (out: Record)
    ensures out.Keys == r.Keys + patch.Keys
    ensures forall k :: k in patch ==> out[k] == patch[k]
    ensures forall k :: k in r && k !in patch ==> out[k] == r[k]
  {
    r + patch
  }

  /** The `setattr` loop that copies each field of a payload onto a fetched document. */
  method ApplyPatch(r: Record, patch: Record) returns (out: Record)
    ensures out == Patched(r, patch)
  {
    out := r;
    var todo := patch.Keys;
    while todo != {}
      invariant todo <= patch.Keys
      invariant out == r + map k | k in patch && k !in todo :: patch[k]
      decreases |todo|
    {
      var k :| k in todo;
      out := out[k := patch[k]];
      todo := todo - {k};
    }
    assert (map k | k in patch && k !in todo :: patch[k]) == patch;
  }

  /** The first slot of `vs` holding a document whose id is `key`, if any. */
  function IndexById(vs: seq<Value>, key: Value): (r: Option<nat>)
    ensures r.Some? ==> r.value < |vs| && Field(AsRecord(vs[r.value]), ID) == key
    ensures r.Some? ==> forall j :: 0 <= j < r.value ==> Field(AsRecord(vs[j]), ID) != key
    ensures r.None? <==> forall j :: 0 <= j < |vs| ==> Field(AsRecord(vs[j]), ID) != key
  {
    if vs == [] then None
    else if Field(AsRecord(vs[0]), ID) == key then Some(0)
    else match IndexById(vs[1..], key)
      case None => None
      case Some(i) => Some(i + 1)
  }

  /** The embedded array `field` of `r` with `v` added at its end; a missing array counts as empty. */
  function Appended(r: Record, field: string, v: Value): (out: Record)
    ensures field in out && out[field].List?
    ensures out[field].items == Items(Field(r, field)) + [v]
    ensures forall k :: k in r && k != field ==> k in out && out[k] == r[k]
    ensures forall k :: k in out ==> k in r || k == field
  {
    r[field := List(Items(Field(r, field)) + [v])]
  }

  /** `vs` without slot `i`, as `del vs[i]` leaves it. */
  function DeleteAt(vs: seq<Value>, i: nat): (out: seq<Value>)
    requires i < |vs|
    ensures |out| == |vs| - 1
    ensures forall j :: 0 <= j < i ==> out[j] == vs[j]
    ensures forall j :: i <= j < |out| ==> out[j] == vs[j + 1]
    ensures multiset(out) + multiset{vs[i]} == multiset(vs)
  {
    assert vs == vs[..i] + [vs[i]] + vs[i + 1..];
    vs[..i] + vs[i + 1..]
  }

  /** The first document of `rs` whose embedded array `field` holds a document with
      id `key`: that document's position and the slot in its array. */
  function FindEmbedded(rs: seq<Record>, field: string, key: Value): (r: Option<(nat, nat)>)
    ensures r.Some? ==> r.value.0 < |rs| && IndexById(Items(Field(rs[r.value.0], field)), key) == Some(r.value.1)
    ensures r.Some? ==> forall j :: 0 <= j < r.value.0 ==> IndexById(Items(Field(rs[j], field)), key).None?
    ensures r.None? <==> forall j :: 0 <= j < |rs| ==> IndexById(Items(Field(rs[j], field)), key).None?
  {
    if rs == [] then None
    else match IndexById(Items(Field(rs[0], field)), key)
      case Some(slot) => Some((0, slot))
      case None =>
        match FindEmbedded(rs[1..], field, key)
        case None => None
        case Some(found) => Some((found.0 + 1, found.1))
  }
}
