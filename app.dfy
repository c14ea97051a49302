/** The App component's state and event handlers. Every handler that awaits
    the backend takes the outcome of that call as a parameter and runs to
    completion before the next handler starts; a handler that writes returns
    the list displayed while the write is pending and the list it sends. */
module PlacePicker {
  import opened Places
  import opened Payloads

  /** What `fetchUserPlaces` resolves to, or the message it rejects with
      (empty when the error carries no message). */
  datatype FetchResult = Fetched(places: seq<Place>) | FetchFailed(message: string)

  /** What `updateUserPlaces` resolves to, or the message it rejects with. */
  datatype WriteResult = Written | WriteFailed(message: string)

  /** The `{ message }` object stored in an error state. */
  datatype ErrorInfo = ErrorInfo(message: string)

  const FetchFailedMessage := "Error fetching user places!"
  const UpdateFailedMessage := "Error updating places!"
  const DeleteFailedMessage := "Error deleting place"

  /** `message || fallback`: an empty message is falsy and gives way to the fallback. */
  function MessageOr(message: string, fallback: string): (m: string)
    ensures message != "" ==> m == message
    ensures message == "" ==> m == fallback
    ensures fallback != "" ==> m != ""
  {
    if message != "" then message else fallback
  }

  class App {
    /** `pickedPlaces`, most recently picked first. */
    var pickedPlaces: seq<Place>
    var isFetching: bool
    /** `error`: set when the initial fetch fails. */
    var error: Option<ErrorInfo>
    /** `errorUpdatingPlaces`: set when a write fails, cleared on dismissal. */
    var errorUpdatingPlaces: Option<ErrorInfo>
    /** Whether the delete confirmation is open. */
    var modalIsOpen: bool
    /** `selectedPlace.current`: the place targeted by the last removal request. */
    var selectedPlace: Option<Place>

    /** The confirmation is never open without a selected place. */
    predicate ModalHasSelection()
      reads this
    {
      modalIsOpen ==> selectedPlace.Some?
    }

    /** The component's initial state, before the fetch effect runs. */
    constructor ()
      ensures pickedPlaces == [] && !isFetching
      ensures error == None && errorUpdatingPlaces == None
      ensures !modalIsOpen && selectedPlace == None
      ensures ModalHasSelection()
    {
      pickedPlaces := [];
      isFetching := false;
      error := None;
      errorUpdatingPlaces := None;
      modalIsOpen := false;
      selectedPlace := None;
    }

    /** The fetch effect: raise the loading flag, await the fetch, store the
        list or the error, and lower the flag in both outcomes. */
    method FetchPlaces(result: FetchResult)
      modifies this
      ensures !isFetching
      ensures result.Fetched? ==> pickedPlaces == result.places && error == old(error)
      ensures result.FetchFailed? ==>
        pickedPlaces == old(pickedPlaces) &&
        error == Some(ErrorInfo(MessageOr(result.message, FetchFailedMessage)))
      ensures errorUpdatingPlaces == old(errorUpdatingPlaces)
      ensures modalIsOpen == old(modalIsOpen) && selectedPlace == old(selectedPlace)
    {
      isFetching := true;
      match result {
        case Fetched(places) =>
          pickedPlaces := places;
        case FetchFailed(message) =>
          error := Some(ErrorInfo(MessageOr(message, FetchFailedMessage)));
      }
      isFetching := false;
    }

    /** Open the confirmation and remember the place to remove. */
    method StartRemovePlace(place: Place)
      modifies this
      ensures modalIsOpen && selectedPlace == Some(place)
      ensures ModalHasSelection()
      ensures pickedPlaces == old(pickedPlaces) && isFetching == old(isFetching)
      ensures error == old(error) && errorUpdatingPlaces == old(errorUpdatingPlaces)
    {
      modalIsOpen := true;
      selectedPlace := Some(place);
    }

    /** Close the confirmation; the remembered place stays in the ref. */
    method StopRemovePlace()
      modifies this
      ensures !modalIsOpen && selectedPlace == old(selectedPlace)
      ensures ModalHasSelection()
      ensures pickedPlaces == old(pickedPlaces) && isFetching == old(isFetching)
      ensures error == old(error) && errorUpdatingPlaces == old(errorUpdatingPlaces)
    {
      modalIsOpen := false;
    }

    /** Pick a place: apply the duplicate-checked prepend at once, send the
        place in front of the pre-pick list, and on failure restore the
        pre-pick list and record the update error. */
    method SelectPlace(place: Place, write: WriteResult) returns (shown: seq<Place>, sent: seq<Place>)
      modifies this
      ensures shown == PickUpdate(old(pickedPlaces), place)
      ensures sent == PickPayload(old(pickedPlaces), place)
      ensures write.Written? ==>
        pickedPlaces == shown && errorUpdatingPlaces == old(errorUpdatingPlaces)
      ensures write.WriteFailed? ==>
        pickedPlaces == old(pickedPlaces) &&
        errorUpdatingPlaces == Some(ErrorInfo(MessageOr(write.message, UpdateFailedMessage)))
      ensures NoDupIds(old(pickedPlaces)) ==> NoDupIds(pickedPlaces)
      ensures isFetching == old(isFetching) && error == old(error)
      ensures modalIsOpen == old(modalIsOpen) && selectedPlace == old(selectedPlace)
    {
      var snapshot := pickedPlaces;
      pickedPlaces := PickUpdate(pickedPlaces, place);
      shown := pickedPlaces;
      sent := PickPayload(snapshot, place);
      if NoDupIds(snapshot) {
        PickUpdatePreservesNoDupIds(snapshot, place);
      }
      match write {
        case Written =>
        case WriteFailed(message) =>
          pickedPlaces := snapshot;
          errorUpdatingPlaces := Some(ErrorInfo(MessageOr(message, UpdateFailedMessage)));
      }
    }

    /** Confirm the removal: drop the selected place's id from the list at
        once, close the confirmation, send the payload as written, and on
        failure restore the pre-removal list and record the update error.
        Confirmation is offered by the open dialog, where ModalHasSelection
        provides the selected place. */
    method RemovePlace(write: WriteResult) returns (shown: seq<Place>, sent: seq<Place>)
      requires selectedPlace.Some?
      modifies this
      ensures !modalIsOpen && selectedPlace == old(selectedPlace)
      ensures shown == FilterNotId(old(pickedPlaces), Id(selectedPlace.value.id))
      ensures shown == IntendedRemovePayload(old(pickedPlaces), selectedPlace.value)
      ensures sent == RemovePayload(old(pickedPlaces))
      ensures ModalHasSelection()
      ensures write.Written? ==>
        pickedPlaces == shown && errorUpdatingPlaces == old(errorUpdatingPlaces)
      ensures write.WriteFailed? ==>
        pickedPlaces == old(pickedPlaces) &&
        errorUpdatingPlaces == Some(ErrorInfo(MessageOr(write.message, DeleteFailedMessage)))
      ensures NoDupIds(old(pickedPlaces)) ==> NoDupIds(pickedPlaces)
      ensures isFetching == old(isFetching) && error == old(error)
    {
      var snapshot := pickedPlaces;
      pickedPlaces := FilterNotId(pickedPlaces, Id(selectedPlace.value.id));
      shown := pickedPlaces;
      modalIsOpen := false;
      sent := RemovePayload(snapshot);
      if NoDupIds(snapshot) {
        FilterNotIdPreservesNoDupIds(snapshot, Id(selectedPlace.value.id));
      }
      match write {
        case Written =>
        case WriteFailed(message) =>
          pickedPlaces := snapshot;
          errorUpdatingPlaces := Some(ErrorInfo(MessageOr(message, DeleteFailedMessage)));
      }
    }

    /** Dismiss the update error. */
    method DismissError()
      modifies this
      ensures errorUpdatingPlaces == None
      ensures pickedPlaces == old(pickedPlaces) && isFetching == old(isFetching)
      ensures error == old(error)
      ensures modalIsOpen == old(modalIsOpen) && selectedPlace == old(selectedPlace)
    {
      errorUpdatingPlaces := None;
    }
  }

  /** An empty initial fetch, then a pick of p1 whose write fails with no
      message: p1 is shown while the write is pending, then the list is
      empty again and the update error carries the default message. */
  method PickRolledBack() returns (shown: seq<Place>, final: seq<Place>, err: Option<ErrorInfo>)
    ensures |shown| == 1 && shown[0].id == "p1"
    ensures final == []
    ensures err == Some(ErrorInfo("Error updating places!"))
  {
    var p1 := Place("p1", "", "", "", Coordinates(0.0, 0.0));
    var app := new App();
    app.FetchPlaces(Fetched([]));
    var sent;
    shown, sent := app.SelectPlace(p1, WriteFailed(""));
    final, err := app.pickedPlaces, app.errorUpdatingPlaces;
  }

  /** From [p1, p2], a removal of p1 that is confirmed leaves [p2] and
      closes the confirmation; one that is cancelled leaves [p1, p2] and
      also closes it. */
  method RemoveConfirmedOrCancelled()
    returns (confirmed: seq<string>, confirmedOpen: bool, cancelled: seq<string>, cancelledOpen: bool)
    ensures confirmed == ["p2"] && !confirmedOpen
    ensures cancelled == ["p1", "p2"] && !cancelledOpen
  {
    var p1 := Place("p1", "", "", "", Coordinates(0.0, 0.0));
    var p2 := Place("p2", "", "", "", Coordinates(0.0, 0.0));

    var app := new App();
    app.FetchPlaces(Fetched([p1, p2]));
    app.StartRemovePlace(p1);
    assert app.modalIsOpen && app.ModalHasSelection();
    var shown, sent := app.RemovePlace(Written);
    confirmed, confirmedOpen := Ids(app.pickedPlaces), app.modalIsOpen;

    var other := new App();
    other.FetchPlaces(Fetched([p1, p2]));
    other.StartRemovePlace(p1);
    other.StopRemovePlace();
    cancelled, cancelledOpen := Ids(other.pickedPlaces), other.modalIsOpen;
  }
}
