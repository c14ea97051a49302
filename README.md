# PlacePicker: the picked-places state machine

PlacePicker is a single-page app in which a user keeps a list of places they
would like to visit. They pick places from a catalogue and remove them after a
confirmation dialog. The list is stored on a backend. Its only logic is the
state machine of the `App` component in `src/App.jsx`, which this project
models in Dafny:

- `places.dfy` (module `Places`): the `Place` record, the duplicate-id
  invariant, and the two pure list updaters. One is the duplicate-checked
  prepend of a pick. The other is the filter by id of a removal.
- `payloads.dfy` (module `Payloads`): the lists the handlers send to
  `updateUserPlaces`. It has the payloads as the code builds them and the
  payloads the code evidently means to send (see "## Findings").
- `app.dfy` (module `PlacePicker`): the class `App`. It has one field per
  piece of component state: `pickedPlaces`, `isFetching`, `error`,
  `errorUpdatingPlaces`, `modalIsOpen`, and `selectedPlace` for the ref's
  `current`. It has one method per event handler. Two client methods replay
  the pick-and-fail and remove-or-cancel scenarios.

Each awaited backend call is a parameter of the handler: `FetchResult` for
`fetchUserPlaces`, `WriteResult` for `updateUserPlaces`. A failure carries
the error's message, which may be empty. The handlers that write also return
two lists: `shown`, the optimistic list displayed while the write is pending,
and `sent`, the list handed to `updateUserPlaces`. Each handler runs to
completion before the next one starts. Under that assumption, the
`pickedPlaces` the handler's closure captured is the list just before its
optimistic update, and rollback restores exactly that list.

The code and the intended design differ in three places. The model follows
the code in each:

- A pick of an id that is already in the list still writes to the backend
  (`src/App.jsx:61`).
- Cancelling a removal closes the dialog but leaves the place in
  `selectedPlace.current` (`src/App.jsx:45-47`).
- The removal payload is not filtered at all (`src/App.jsx:82`; see
  "## Findings").

## Model

| member | source | states |
|---|---|---|
| Places.Contains | src/App.jsx:54 | `some` on ids: true exactly when some entry of the list has the id |
| Places.PickUpdate | src/App.jsx:50-58 | after a pick the id is in the list, the old list is untouched at its tail, and the list grew by at most one |
| Places.PickUpdateCases | src/App.jsx:54-57 | an id already picked leaves the list unchanged; a new place lands at index 0 with the old list after it, one longer |
| Places.PickUpdateUnchangedIff | src/App.jsx:54-57 | a pick leaves the list unchanged if and only if the id was already picked |
| Places.PickUpdatePreservesNoDupIds | src/App.jsx:54-57 | a pick keeps the ids of the list distinct |
| Places.FilterNotId | src/App.jsx:72-76 | a place is kept if and only if it was in the list and its id differs from the target; the result is never longer |
| Places.FilterNotIdAppend | src/App.jsx:72-76 | the filter distributes over concatenation, so kept entries stay in their original order |
| Places.FilterNotIdKeepsAll | src/App.jsx:72-76 | a target no entry matches leaves the list as it was |
| Places.FilterNotIdIdempotent | src/App.jsx:72-76 | removing the same id twice is removing it once |
| Places.FilterNotIdRemovesOne | src/App.jsx:72-76 | in a list with distinct ids, removing a present id makes the list exactly one shorter |
| Places.FilterNotIdPreservesNoDupIds | src/App.jsx:72-76 | a removal keeps the ids of the list distinct |
| Places.FilterNotUndefinedIsIdentity | src/App.jsx:82 | comparing ids against `undefined` keeps every entry |
| Payloads.PickPayload | src/App.jsx:61 | the pick write sends the place first and the whole pre-pick list after it, with no duplicate check |
| Payloads.RemovePayload | src/App.jsx:82 | the removal write sends the pre-removal list filtered against the ref object's own `id`; never longer than that list |
| Payloads.PickPayloadAsWritten | src/App.jsx:54-61 | for a new place the pick payload equals the optimistic list; for a duplicate it differs from it and holds the id twice |
| Payloads.RemovePayloadAsWritten | src/App.jsx:72-83 | the removal payload is the whole pre-removal list, and it differs from the local list whenever the selected id was present |
| Payloads.IntendedPickWrite | src/App.jsx:54-61 | no write exactly when the id is already picked; otherwise the optimistic list, with the place first and ids kept distinct |
| Payloads.IntendedRemovePayload | src/App.jsx:72-83 | exactly the entries whose id differs from the selected place's; with distinct ids and the place present, one shorter; ids stay distinct |
| PlacePicker.MessageOr | src/App.jsx:29-31 | a non-empty message is kept; an empty message gives way to the fallback, so the result is never empty when the fallback is not |
| PlacePicker.App.constructor | src/App.jsx:11-19 | initial state: empty list, not fetching, no errors, dialog closed, nothing selected |
| PlacePicker.App.FetchPlaces | src/App.jsx:21-38 | ends with `isFetching` false; on success the list is the fetched list; on failure the list is untouched and the fetch error is the message or "Error fetching user places!" |
| PlacePicker.App.StartRemovePlace | src/App.jsx:40-43 | opens the dialog and records the place; the list and both errors are unchanged |
| PlacePicker.App.StopRemovePlace | src/App.jsx:45-47 | closes the dialog and changes nothing else, not even the selection |
| PlacePicker.App.SelectPlace | src/App.jsx:49-68 | shows the duplicate-checked prepend and sends the place in front of the pre-pick list; on success keeps the shown list; on failure restores the pre-pick list and sets the update error to the message or "Error updating places!"; keeps ids distinct |
| PlacePicker.App.RemovePlace | src/App.jsx:70-92 | shows the list without the selected id, which is exactly the payload the removal evidently means to send, and closes the dialog; sends the as-written removal payload; on failure restores the pre-removal list and sets the update error to the message or "Error deleting place"; keeps ids distinct |
| PlacePicker.App.DismissError | src/App.jsx:94-96 | clears only the update error |
| PlacePicker.PickRolledBack | src/App.jsx:49-68 | after an empty fetch, a pick of p1 whose write fails with no message shows [p1], then leaves [] and "Error updating places!" |
| PlacePicker.RemoveConfirmedOrCancelled | src/App.jsx:40-92 | from [p1, p2], a confirmed removal of p1 leaves exactly the ids [p2]; a cancelled one leaves exactly [p1, p2]; the dialog is closed in both |

## Findings

`App` models the code as written, so `App.RemovePlace` sends
`RemovePayload` and `App.SelectPlace` sends `PickPayload`. The corrected
payloads are defined and proved next to them in module `Payloads`.

| source | as written | input that shows it | evidently intended | confidence | as-written member | corrected member |
|---|---|---|---|---|---|---|
| src/App.jsx:82 | the removal payload filters on `selectedPlace.id`, the ref object's own property, which is never assigned, so every entry passes and the full list is sent | list [p1, p2], remove p1: the local list is [p2], the payload is [p1, p2] | filter on `selectedPlace.current.id` and send the list shown locally | not executed; high | Payloads.RemovePayloadAsWritten | Payloads.IntendedRemovePayload |
| src/App.jsx:61 | the pick payload is `[selectedPlace, ...pickedPlaces]` without the duplicate check that the local updater makes | list [p1], pick p1 again: the local list stays [p1], the payload is [p1, p1] | no write for a place already picked, otherwise the optimistic list | not executed; medium | Payloads.PickPayloadAsWritten | Payloads.IntendedPickWrite |

## Left out

- Rendering (`src/App.jsx:98-142`) and the components `Places`, `Modal`, `DeleteConfirmation`, `Error` and `AvailablePlaces`: presentation, and not part of this model. This includes the distance sort and the geolocation in `AvailablePlaces`.
- `fetchUserPlaces` and `updateUserPlaces` from `src/http.js`: network I/O, not part of this model. They appear only as the `FetchResult` and `WriteResult` parameters.
- React hook mechanics: the run-once `useEffect`, the `useCallback` memoisation (line 91) and re-render timing.
- Overlapping in-flight writes: each handler completes before the next starts, so the stale-closure rollback that a second concurrent write could cause is not modelled.
- The `!prevPickedPlaces` guard (lines 51-53): the list is always a sequence here, so the guard never fires.
- `FetchPlaces` does not record the intermediate state where `isFetching` is true while the fetch is pending. Only the state after the fetch settles is stated.
- An error without a `message` property is modelled as an empty message. Both are falsy and give the default text.
- Every place has a string `id`. A place whose `id` is missing is not modelled.
- PlacePicker.App.StartRemovePlace: takes the whole place, although the handler's parameter at `src/App.jsx:40` is named `id`. The `Places` component that calls it is not part of this model. Line 74 reads `selectedPlace.current.id`, so the handler must be given an object that has an `id`, and the sibling handler `handleSelectPlace` also receives a place. If a bare string id were passed, line 74 would compare against `undefined` and the local removal would keep every entry.
- `App.RemovePlace` requires a selected place. Confirmation is only offered after `StartRemovePlace`. With no selection, the source would throw on reading `.id` of `undefined`.
- Only the `id` of a place takes part in any operation. Titles, images, descriptions and coordinates are carried along unchanged.
