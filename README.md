# Users and missions: an in-memory CRUD store, modelled in Dafny

The Python API keeps two record collections in process memory: users and
missions. Each collection is a list of records in insertion order plus a
module-level counter holding the next id, which starts at 1. Each supports
five operations:

- create assigns the counter's value as the id, appends the record and bumps the counter;
- list returns the list;
- get scans for the first record with the id;
- update overwrites the matched record in place and forces its id to the requested one;
- delete pops the matched record and returns it.

A missing id is reported as HTTP 404. The two collections run the same code over
different record types.

The model has five modules:

- `Wrappers` (`wrappers.dfy`) holds `Option` and `Result`. `Result` is `Ok(value)`
  or `NotFound`, and `NotFound` stands for the 404.
- `Models` (`models.dfy`) holds the fields of `User` and `Mission` other than the
  id. The mission's boolean keeps the source's spelling, `successfull`. The
  float `reward` is the uninterpreted type `Reward`.
- `Storage` (`storage.dfy`) holds one generic class, `Store<T>`. Its `records:
  seq<Record<T>>` field is reassigned by the operations, and its `nextId: int`
  field is the counter. A request payload is a `Body<T>`, which may carry an
  id of its own that the store discards. A stored record is a `Record<T>`. The
  module also gives each operation a value-level meaning as a function of the
  abstract state `Table<T>`: `FirstIndex`, `Lookup` and `Apply`. Every mutating method's
  contract ties the new state to that function. The store invariant is
  `Invariant`: the counter is at least 1, every id lies in `[1, nextId)`, and
  ids strictly increase along the list. Lemmas prove that every request
  preserves the invariant, and that reading back after a create, an update or
  a delete gives the expected result.
- `History` (`history.dfy`) replays any sequence of requests. It proves what the
  counter and the list length become, and that a deleted id never reappears.
- `Endpoints` (`endpoints.dfy`) holds the class `Api`. It owns one `Store<User>`
  and one `Store<Mission>` and has the ten endpoint methods. Each method changes
  only its own store. `UserWalkthrough` is a client that creates, updates and
  deletes users. Its assertions follow from the contracts alone.

The source's user and mission code is the same apart from the record type, so
each `Store` member is cited at the user lines. The mission lines are cited
through the `Api` methods.

## Model

| member | source | states |
|---|---|---|
| `Storage.FirstIndex` | python_api/main.py:57-58 | the position the enumerate scan stops at: a record with the id, with no earlier record having it; None exactly when no record has the id |
| `Storage.Lookup` | python_api/main.py:49-52 | get yields Ok exactly when some record carries the id, and the record it yields carries that id and is in the list; otherwise NotFound |
| `Storage.Apply` | python_api/main.py:35-71 | the state after one request: create keeps the earlier records, puts Record(nextId, fields) at the end and adds 1 to the counter, and nothing else moves the counter; the list grows by one on a create, shrinks by one on a delete that finds its id, and otherwise keeps its length; an update or delete whose id no record carries leaves the state exactly as it was |
| `Storage.ApplyKeepsInvariant` | python_api/main.py:35-71 | each of create, list, get, update and delete preserves the invariant: counter at least 1, ids in [1, counter), ids strictly increasing by position, hence unique |
| `Storage.LookupFindsStored` | python_api/main.py:49-51 | under the invariant, looking up the id of any stored record yields exactly that record (the first match is the only match) |
| `Storage.GetAfterCreate` | python_api/main.py:35-39 | a get of the id that create just assigned yields the created record |
| `Storage.GetAfterUpdate` | python_api/main.py:57-61 | after a successful update, a get of that id yields the payload's fields under the requested id, with no stale field |
| `Storage.GetAfterDelete` | python_api/main.py:67-71 | after a delete of an id, a get of that id yields NotFound |
| `Storage.Store.constructor` | python_api/main.py:25-28 | a store starts in the state `Empty()`: an empty list and counter 1; it satisfies the invariant |
| `Storage.Store.Create` | python_api/main.py:35-39 | the returned record has the old counter as its id, whatever id the payload carried, and the payload's fields; it is appended at the end with earlier records unchanged; the counter grows by exactly 1; the invariant is kept |
| `Storage.Store.List` | python_api/main.py:42-44 | returns the current records in their current order; nothing changes |
| `Storage.Store.Locate` | python_api/main.py:57-58 | the scan loop returns the position of the first record with the id, or None when it runs off the end; nothing changes |
| `Storage.Store.Get` | python_api/main.py:49-52 | returns the first record with the id or NotFound, and changes neither the list nor the counter |
| `Storage.Store.Update` | python_api/main.py:57-62 | on a match at position i, only position i changes: it becomes the payload's fields with the requested id, and Ok of that record is returned. Length, the other positions and the counter are unchanged. Without a match: NotFound and the store is untouched. The invariant is kept |
| `Storage.Store.Delete` | python_api/main.py:67-71 | on a match at position i, the removed record is returned and the list becomes s[..i] + s[i+1..], so the others keep their order and ids. Without a match: NotFound and the store is untouched. The counter never changes and the invariant is kept |
| `History.RunKeepsInvariant` | python_api/main.py:25-71 | the invariant holds after any sequence of requests served from a valid state |
| `History.RunCounter` | python_api/main.py:36-38 | after any sequence of requests, the counter has grown by exactly the number of creates |
| `History.RunLength` | python_api/main.py:35-71 | after any sequence of requests, the list length has grown by the number of creates and shrunk by the number of deletes that found their id |
| `History.ListLengthFromStart` | python_api/main.py:25-44 | from process start, list's length equals the number of creates minus the number of successful deletes |
| `History.StaysAbsent` | python_api/main.py:36-38 | an id below the counter that no record carries stays absent after any later requests |
| `History.NeverReused` | python_api/main.py:67-71 | once delete removes an id, no later sequence of requests brings back a record with that id |
| `Endpoints.Api.constructor` | python_api/main.py:25-28 | two distinct stores, each empty with counter 1 |
| `Endpoints.Api.CreateUser` | python_api/main.py:32-39 | create on the user store: id is the old user counter, appended, counter plus 1; the mission store is unchanged |
| `Endpoints.Api.ListUsers` | python_api/main.py:41-44 | returns the user list as it is |
| `Endpoints.Api.GetUser` | python_api/main.py:46-52 | the first user with the id, or NotFound |
| `Endpoints.Api.UpdateUser` | python_api/main.py:54-62 | full in-place replacement at the matched position with the id forced, or NotFound with the user store untouched; missions unchanged |
| `Endpoints.Api.DeleteUser` | python_api/main.py:64-71 | the matched user is removed and returned, or NotFound with the user store untouched; missions unchanged |
| `Endpoints.Api.CreateMission` | python_api/main.py:75-82 | create on the mission store: id is the old mission counter, appended, counter plus 1; the user store is unchanged |
| `Endpoints.Api.ListMissions` | python_api/main.py:84-87 | returns the mission list as it is |
| `Endpoints.Api.GetMission` | python_api/main.py:89-95 | the first mission with the id, or NotFound |
| `Endpoints.Api.UpdateMission` | python_api/main.py:97-105 | full in-place replacement at the matched position with the id forced, or NotFound with the mission store untouched; users unchanged |
| `Endpoints.Api.DeleteMission` | python_api/main.py:107-114 | the matched mission is removed and returned, or NotFound with the mission store untouched; users unchanged |

## Left out

- HTTP routing, status codes and response shapes are not modelled. A 404 is the `NotFound` value. The delete endpoints' `{"message": ..., "user"/"mission": ...}` wrapper is reduced to the removed record.
- The route string of the get-user endpoint (python_api/main.py:46) ends in `, response_model=User` inside the path. So over HTTP, `GET /users/{id}` does not reach `get_user`. Routing is not modelled. `Endpoints.Api.GetUser` models the function body as written.
- Payload validation (required fields, types) happens before the store is reached. Payloads are assumed well-formed.
- `reward` is a float that nothing computes with. It is the uninterpreted type `Models.Reward`.
- Concurrency is not modelled: calls are strictly sequential. The source has no locking.
- The source mutates the request object (`user.id = ...`) and stores that same object. The model uses values, so aliasing between the returned and the stored object is not captured.
- Python integers are unbounded, so the counter and the ids are Dafny `int`s, with no wrap-around.
