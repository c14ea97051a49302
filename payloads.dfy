/** The lists the App component hands to `updateUserPlaces`: the payloads as
    the handlers build them, and the payloads they evidently mean to send. */
module Payloads {
  import opened Places

  /** What a pick sends: the place in front of the pre-pick list, whether or
      not its id was already picked. */
  function PickPayload(snapshot: seq<Place>, place: Place): (r: seq<Place>)
    ensures |r| == |snapshot| + 1 && r[0] == place && r[1..] == snapshot
  {
    [place] + snapshot
  }

  /** The removal handler compares against `selectedPlace.id`, the ref
      object's own `id` property, which nothing ever assigns. */
  const RefOwnId: IdValue := Undefined

  /** What a confirmed removal sends as written: the pre-removal list
      filtered against the ref's own id. */
  function RemovePayload(snapshot: seq<Place>): (r: seq<Place>)
    ensures |r| <= |snapshot|
  {
    FilterNotId(snapshot, RefOwnId)
  }

  /** For a new place the pick payload is the optimistic list; for an id
      already picked it differs from the local list and holds the id twice,
      so the backend is sent a list with a duplicate. */
  lemma PickPayloadAsWritten(snapshot: seq<Place>, place: Place)
    ensures !Contains(snapshot, place.id) ==> PickPayload(snapshot, place) == PickUpdate(snapshot, place)
    ensures Contains(snapshot, place.id) ==>
      PickPayload(snapshot, place) != PickUpdate(snapshot, place) &&
      !NoDupIds(PickPayload(snapshot, place))
  {
    var r := PickPayload(snapshot, place);
    if Contains(snapshot, place.id) {
      var k :| 0 <= k < |snapshot| && snapshot[k].id == place.id;
      assert r[0].id == r[k + 1].id;
      assert |r| != |snapshot|;
    }
  }

  /** The removal payload as written is the whole pre-removal list: the
      selected place is never removed from the backend, while the local list
      drops it. */
  lemma RemovePayloadAsWritten(snapshot: seq<Place>, selected: Place)
    ensures RemovePayload(snapshot) == snapshot
    ensures Contains(snapshot, selected.id) ==>
      RemovePayload(snapshot) != FilterNotId(snapshot, Id(selected.id))
  {
    FilterNotUndefinedIsIdentity(snapshot);
    if Contains(snapshot, selected.id) {
      var k :| 0 <= k < |snapshot| && snapshot[k].id == selected.id;
      assert snapshot[k] in snapshot;
      assert snapshot[k] !in FilterNotId(snapshot, Id(selected.id));
    }
  }

  /** The write a pick evidently intends: none for an id already picked, and
      otherwise the optimistic list itself. */
  function IntendedPickWrite(snapshot: seq<Place>, place: Place): (r: Option<seq<Place>>)
    ensures r.None? <==> Contains(snapshot, place.id)
    ensures r.Some? ==> r.value == PickUpdate(snapshot, place) && r.value[0] == place
    ensures r.Some? && NoDupIds(snapshot) ==> NoDupIds(r.value)
  {
    if Contains(snapshot, place.id) then None
    else
      assert NoDupIds(snapshot) ==> NoDupIds([place] + snapshot) by {
        if NoDupIds(snapshot) {
          PickUpdatePreservesNoDupIds(snapshot, place);
        }
      }
      Some([place] + snapshot)
  }

  /** The payload a removal evidently intends: the pre-removal list without
      the selected place's id, which is the optimistic local list. */
  function IntendedRemovePayload(snapshot: seq<Place>, selected: Place): (r: seq<Place>)
    ensures forall p :: p in r <==> p in snapshot && p.id != selected.id
    ensures NoDupIds(snapshot) && Contains(snapshot, selected.id) ==> |r| == |snapshot| - 1
    ensures NoDupIds(snapshot) ==> NoDupIds(r)
  {
    var r := FilterNotId(snapshot, Id(selected.id));
    assert NoDupIds(snapshot) ==>
      NoDupIds(r) && (Contains(snapshot, selected.id) ==> |r| == |snapshot| - 1) by {
      if NoDupIds(snapshot) {
        FilterNotIdPreservesNoDupIds(snapshot, Id(selected.id));
        if Contains(snapshot, selected.id) {
          FilterNotIdRemovesOne(snapshot, selected.id);
        }
      }
    }
    r
  }
}
