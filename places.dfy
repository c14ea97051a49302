/** The user's picked places and the two pure list updaters that the App
    component applies to them: the duplicate-checked prepend of a pick and
    the filter by id of a removal. */
module Places {

  datatype Option<T> = None | Some(value: T)

  datatype Coordinates = Coordinates(lat: real, lng: real)

  /** A place as the backend returns it; its identity is its id. */
  datatype Place = Place(
    id: string,
    title: string,
    image: string,
    description: string,
    coordinates: Coordinates)

  /** A JavaScript value compared against `place.id` with `!==`: either a
      string id or `undefined` (a property that was never assigned). */
  datatype IdValue = Undefined | Id(s: string)

  /** No two entries of the list share an id. */
  predicate NoDupIds(places: seq<Place>)
  {
    forall i, j :: 0 <= i < j < |places| ==> places[i].id != places[j].id
  }

  /** The ids of the list, in order. */
  function Ids(places: seq<Place>): (r: seq<string>)
    ensures |r| == |places|
    ensures forall i :: 0 <= i < |places| ==> r[i] == places[i].id
  {
    seq(|places|, i requires 0 <= i < |places| => places[i].id)
  }

  /** `places.some((place) => place.id === id)`. */
  function Contains(places: seq<Place>, id: string): (b: bool)
    ensures b <==> exists i :: 0 <= i < |places| && places[i].id == id
  {
    if places == [] then false
    else if places[0].id == id then true
    else
      var rest := Contains(places[1..], id);
      assert rest ==> exists i :: 0 <= i < |places| && places[i].id == id by {
        if rest {
          var k :| 0 <= k < |places[1..]| && places[1..][k].id == id;
          assert places[k + 1].id == id;
        }
      }
      rest
  }

  /** The state updater of a pick: the old list when the place's id is
      already picked, otherwise the place in front of the old list. */
  function PickUpdate(prev: seq<Place>, place: Place): (r: seq<Place>)
    ensures Contains(r, place.id)
    ensures |prev| <= |r| <= |prev| + 1 && r[|r| - |prev|..] == prev
  {
    if Contains(prev, place.id) then prev
    else
      assert ([place] + prev)[0].id == place.id;
      [place] + prev
  }

  /** `places.filter((place) => place.id !== target)`. */
  function FilterNotId(places: seq<Place>, target: IdValue): (r: seq<Place>)
    ensures |r| <= |places|
    ensures forall p :: p in r <==> p in places && Id(p.id) != target
  {
    if places == [] then []
    else if Id(places[0].id) != target then [places[0]] + FilterNotId(places[1..], target)
    else FilterNotId(places[1..], target)
  }

  /** Picking an id that is already in the list leaves the list as it was;
      picking a new one puts the place at index 0 with the old list after it. */
  lemma PickUpdateCases(prev: seq<Place>, place: Place)
    ensures Contains(prev, place.id) ==> PickUpdate(prev, place) == prev
    ensures !Contains(prev, place.id) ==>
      var r := PickUpdate(prev, place);
      |r| == |prev| + 1 && r[0] == place && r[1..] == prev
  {
  }

  /** The list is left unchanged by a pick exactly when the id was already picked. */
  lemma PickUpdateUnchangedIff(prev: seq<Place>, place: Place)
    ensures PickUpdate(prev, place) == prev <==> Contains(prev, place.id)
  {
    if !Contains(prev, place.id) {
      assert |PickUpdate(prev, place)| == |prev| + 1;
    }
  }

  /** A pick keeps the ids of the list distinct. */
  lemma PickUpdatePreservesNoDupIds(prev: seq<Place>, place: Place)
    requires NoDupIds(prev)
    ensures NoDupIds(PickUpdate(prev, place))
  {
    var r := PickUpdate(prev, place);
    if !Contains(prev, place.id) {
      forall i, j | 0 <= i < j < |r| ensures r[i].id != r[j].id {
        if i == 0 {
          assert r[j] == prev[j - 1];
        } else {
          assert r[i] == prev[i - 1] && r[j] == prev[j - 1];
        }
      }
    }
  }

  /** The filter distributes over concatenation, so the entries it keeps
      stay in their original order. */
  lemma {:induction false} FilterNotIdAppend(a: seq<Place>, b: seq<Place>, target: IdValue)
    ensures FilterNotId(a + b, target) == FilterNotId(a, target) + FilterNotId(b, target)
  {
    if a == [] {
      assert a + b == b;
    } else {
      assert (a + b)[0] == a[0];
      assert (a + b)[1..] == a[1..] + b;
      FilterNotIdAppend(a[1..], b, target);
    }
  }

  /** A filter that matches no entry returns the list itself. */
  lemma {:induction false} FilterNotIdKeepsAll(places: seq<Place>, target: IdValue)
    requires forall i :: 0 <= i < |places| ==> Id(places[i].id) != target
    ensures FilterNotId(places, target) == places
  {
    if places != [] {
      FilterNotIdKeepsAll(places[1..], target);
    }
  }

  /** Every place has a string id, so a filter against `undefined` keeps
      every entry. */
  lemma FilterNotUndefinedIsIdentity(places: seq<Place>)
    ensures FilterNotId(places, Undefined) == places
  {
    FilterNotIdKeepsAll(places, Undefined);
  }

  /** Filtering twice by the same id is filtering once. */
  lemma FilterNotIdIdempotent(places: seq<Place>, target: IdValue)
    ensures FilterNotId(FilterNotId(places, target), target) == FilterNotId(places, target)
  {
    var r := FilterNotId(places, target);
    assert forall i :: 0 <= i < |r| ==> r[i] in r;
    FilterNotIdKeepsAll(r, target);
  }

  /** In a list without duplicate ids, removing a present id drops exactly one entry. */
  lemma {:induction false} FilterNotIdRemovesOne(places: seq<Place>, id: string)
    requires NoDupIds(places) && Contains(places, id)
    ensures |FilterNotId(places, Id(id))| == |places| - 1
  {
    var rest := places[1..];
    assert NoDupIds(rest) by {
      forall i, j | 0 <= i < j < |rest| ensures rest[i].id != rest[j].id {
        assert rest[i] == places[i + 1] && rest[j] == places[j + 1];
      }
    }
    if places[0].id == id {
      forall i | 0 <= i < |rest| ensures Id(rest[i].id) != Id(id) {
        assert rest[i] == places[i + 1];
      }
      FilterNotIdKeepsAll(rest, Id(id));
    } else {
      var k :| 0 <= k < |places| && places[k].id == id;
      assert rest[k - 1].id == id;
      FilterNotIdRemovesOne(rest, id);
    }
  }

  /** A removal keeps the ids of the list distinct. */
  lemma {:induction false} FilterNotIdPreservesNoDupIds(places: seq<Place>, target: IdValue)
    requires NoDupIds(places)
    ensures NoDupIds(FilterNotId(places, target))
  {
    if places != [] {
      var rest := places[1..];
      assert NoDupIds(rest) by {
        forall i, j | 0 <= i < j < |rest| ensures rest[i].id != rest[j].id {
          assert rest[i] == places[i + 1] && rest[j] == places[j + 1];
        }
      }
      FilterNotIdPreservesNoDupIds(rest, target);
      var tail := FilterNotId(rest, target);
      if Id(places[0].id) != target {
        var r := FilterNotId(places, target);
        assert r == [places[0]] + tail;
        forall i, j | 0 <= i < j < |r| ensures r[i].id != r[j].id {
          assert r[j] == tail[j - 1] && tail[j - 1] in rest;
          var k :| 0 <= k < |rest| && rest[k] == tail[j - 1];
          assert rest[k] == places[k + 1];
          if i > 0 {
            assert r[i] == tail[i - 1];
          }
        }
      }
    }
  }
}
