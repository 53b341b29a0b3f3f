# our-notes: note service and client note cache

This project models a small note-taking app with three note collections:
shopping notes, map notes and calendar notes. It has two parts.

- **The note service** (a Hono worker over a D1 table per kind). For each kind there are four route handlers:
  - list (`GET /api/{kind}`);
  - create (`POST`);
  - update (`PUT /api/{kind}/:id`);
  - delete (`DELETE /api/{kind}/:id`).

  `Service.NoteService` holds one `map<Id, Row>` per kind in a `tables` field. Each handler is a method that returns a `Response` (status and JSON payload) and updates `tables` as the SQL statement would. Three values that the source gets from the runtime are inputs here:
  - whether the statement throws (`storeFails`);
  - the UUID;
  - the creation time.
- **The client note cache** (`useNotesStore`, a Pinia store). `Client.NotesStore` is a class with these fields:
  - the three note sequences;
  - the `error`, `isLoading` and `isEditMode` flags;
  - the local-storage entries it writes and reads.

  Each action is a method that takes the remote outcome as a parameter (`Reply`: a 2xx reply with its body, another status, or a thrown message). Each method is proved against a pure transition on a `View` of the whole state (`FetchNext`, `AddNext`, `DeleteNext`, `UpdateNext`, `ToggledNext`, `View.Saved`, `View.Loaded`). The lemmas about those transitions state the degraded-mode rules:
  - add always appends;
  - delete always removes;
  - update never patches locally;
  - a failed fetch reloads every collection that has a snapshot.

One generic definition serves all three kinds. The kinds still differ where the source makes them differ:
- A calendar row has `date` and `person`.
- A client calendar note has `date` but no `person`.
- Calendar rows are listed by `date`; the other kinds by `created_at`.
- Every 500 message and every client error message names its kind. The 404 message `Note not found` is shared by all kinds, and `Text is required` by shopping and map.

`Interplay` sends the client's actual request bodies to the service. The client's calendar add and calendar update never send `person`, which the service requires. So against this service a calendar add always falls back to a local-only note, and a calendar update always ends in an error (see Findings).

Files: `wire.dfy` (shared rows, bodies, responses), `ordering.dfy` (the `ORDER BY ... DESC` order), `service.dfy`, `client.dfy`, `interplay.dfy`.

Three facts about the code that the model keeps:
- `CalendarNote` declares `person: 1 | 2` (src/api/index.ts:22), but the handlers check it only for truthiness (src/api/index.ts:214, :254), so any non-zero number is stored. The model does not restrict it to 1 or 2.
- A failed fetch reloads all three collections from their snapshots, not only the one being fetched.
- Add and delete never clear `error` on success; only fetch and update reset it.

## Model

| member | source | states |
|---|---|---|
| Ordering.LexLeReflexive | src/api/index.ts:53 | every text key sorts no later than itself under the row store's text order |
| Ordering.LexLeTotal | src/api/index.ts:127 | any two text keys are comparable, so `ORDER BY ... DESC` is defined on every table |
| Ordering.LexLeTransitive | src/api/index.ts:53 | the text order is transitive |
| Ordering.LexLeAntisymmetric | src/api/index.ts:201 | two keys that each sort no later than the other are equal: the order only ties on equal keys |
| Ordering.Insert | src/api/index.ts:53 | inserting a row into a descending sequence keeps it descending by sort key and adds exactly that row (multiset) |
| Ordering.SortDesc | src/api/index.ts:201 | the result is in descending sort-key order and is a permutation of the input |
| Service.NewRow | src/api/index.ts:218-223 | the inserted row has the minted id and time, the body's text (and date, person for calendar), and its table's shape |
| Service.Revised | src/api/index.ts:258 | an update keeps `id` and `created_at` and replaces `text` (and `date`, `person` for calendar) with the body's |
| Service.EnumeratesMembers | src/api/index.ts:53-54 | a listing that enumerates a table contains every row, only table rows, and no row twice |
| Service.NoteService.constructor | src/api/index.ts:27-32 | the service starts over well-formed tables for all three kinds |
| Service.NoteService.List | src/api/index.ts:51-59 | store failure gives 500 with the kind's fetch message; otherwise 200 with every row exactly once, sorted descending by `created_at` (`date` for calendar) |
| Service.NoteService.Create | src/api/index.ts:62-80 | unparseable body or store failure gives 500, a missing or empty required field gives 400, and in both cases the table is unchanged; otherwise 201 with the new row, inserted under the fresh id, with no other row changed |
| Service.NoteService.Update | src/api/index.ts:249-269 | 500 or 400 as for create; an absent id gives 404; both leave the table unchanged; a present id gives 200 with the echoed body fields and only that row revised |
| Service.NoteService.Delete | src/api/index.ts:83-98 | store failure gives 500; an absent id gives 404 with no change; a present id gives 200 `{success:true}` with only that row removed |
| Service.DeleteTwice | src/api/index.ts:87-93 | deleting the same present id twice gives success, then 404, and the row is gone |
| Service.CreateThenList | src/api/index.ts:70-75 | after a successful create the next listing contains the created record and every earlier row |
| Client.FromRow | src/stores/notesStore.ts:114-119 | a fetched row becomes a client note with the same id, text and creation time; calendar notes keep `date` and drop `person` |
| Client.FromRows | src/stores/notesStore.ts:68-72 | the fetched array maps to notes of the same length and order, note i being row i mapped by `FromRow`: same id, text and time, and for calendar a calendar note carrying the row's date |
| Client.LocalNote | src/stores/notesStore.ts:232-237 | the local-only note carries the local id, the requested text, the local time, and the date for calendar |
| Client.RemoveId | src/stores/notesStore.ts:253 | the filtered collection contains exactly the notes whose id differs from the argument |
| Client.RemoveIdAppend | src/stores/notesStore.ts:260 | filtering distributes over concatenation, so the kept notes keep their original order |
| Client.RemoveIdAbsent | src/stores/notesStore.ts:297 | filtering a collection that holds no note under the id leaves it unchanged |
| Client.RemoveIdIdempotent | src/stores/notesStore.ts:304 | filtering twice by the same id equals filtering once |
| Client.SavedMirrors | src/stores/notesStore.ts:387-391 | after saving, each of the three snapshots equals its collection and the collections are untouched |
| Client.LoadAfterSave | src/stores/notesStore.ts:393-407 | loading right after saving leaves the state exactly as saved |
| Client.AddAppendsOne | src/stores/notesStore.ts:131-165 | add grows the target collection by one note at the end: the server record on success (error untouched), otherwise a local note with the requested text (and date) with `error` set; other collections unchanged; snapshots mirror the collections |
| Client.DeleteRemovesOnEveryPath | src/stores/notesStore.ts:243-263 | whatever the reply, the target collection is filtered by id and the others are unchanged; 2xx and 404 leave `error` alone, anything else sets it; snapshots mirror the collections |
| Client.FetchSuccessReplaces | src/stores/notesStore.ts:60-72 | a successful fetch replaces the collection with the mapped reply (same length and order, same ids, texts and creation times, calendar notes with each row's date for the calendar kind), clears `error` and `isLoading`, and leaves the other collections alone |
| Client.FetchFailureRestoresAll | src/stores/notesStore.ts:73-80 | a failed fetch sets `error`, replaces each of the three collections whose snapshot exists, leaves the rest, and ends with `isLoading` false |
| Client.FetchFailureAfterSave | src/stores/notesStore.ts:398-406 | a fetch that fails right after a save restores exactly the saved collections |
| Client.UpdateFailureKeepsNotes | src/stores/notesStore.ts:326-331 | a failed update leaves every collection and snapshot unchanged, sets `error` and clears `isLoading` |
| Client.UpdateSuccessRefetches | src/stores/notesStore.ts:321-325 | a successful update ends exactly where a fresh fetch of that kind ends: no local patch |
| Client.ToggleTwice | src/stores/notesStore.ts:382-384 | toggling negates `isEditMode`, and toggling twice is the identity |
| Client.NotesStore.constructor | src/stores/notesStore.ts:52-57 | the store starts with empty collections, all flags false, no error, and existing local storage |
| Client.NotesStore.SaveToLocalStorage | src/stores/notesStore.ts:387-391 | writes the three snapshots and nothing else; afterwards they mirror the collections |
| Client.NotesStore.LoadFromLocalStorage | src/stores/notesStore.ts:393-407 | replaces each collection whose snapshot is present, nothing else |
| Client.NotesStore.Fetch | src/stores/notesStore.ts:106-128 | the new state is `FetchNext` of the old state and the reply |
| Client.NotesStore.Add | src/stores/notesStore.ts:203-241 | the new state is `AddNext` of the old state, the requested fields and the reply |
| Client.NotesStore.Delete | src/stores/notesStore.ts:287-307 | the new state is `DeleteNext` of the old state, the id and the reply |
| Client.NotesStore.Update | src/stores/notesStore.ts:358-380 | the new state is `UpdateNext` of the old state, the update reply and the reply of the follow-up fetch |
| Client.NotesStore.ToggleEditMode | src/stores/notesStore.ts:382-384 | only `isEditMode` changes, to its negation |
| Interplay.RequestBody | src/stores/notesStore.ts:212 | the client sends `text`, adds `date` only for calendar notes, and never sends `person` |
| Interplay.ClientBodyAccepted | src/api/index.ts:214 | the service accepts the client's body exactly when the kind is not calendar and the text is non-empty |
| Interplay.CreateReply | src/stores/notesStore.ts:215-217 | the client reads a create response as ok exactly on a 2xx status, and then takes the created record |
| Interplay.StatusReply | src/stores/notesStore.ts:293 | the client reads a response as ok exactly on a 2xx status and keeps any other status |
| Interplay.AddViaService | src/stores/notesStore.ts:131-165 | a shopping or map add with non-empty text and a working store appends the inserted record; otherwise the service is unchanged and the client appends a local note with `error` set |
| Interplay.AddCalendarNoteViaService | src/stores/notesStore.ts:203-241 | the calendar add as written always gets 400, writes nothing on the service, and appends a local-only note with the add failure recorded |
| Interplay.UpdateCalendarNoteViaService | src/stores/notesStore.ts:358-380 | the calendar update as written always gets 400, changes nothing on the service, and only sets `error` on the client |
| Interplay.DeleteMissingViaService | src/stores/notesStore.ts:287-307 | deleting an id the service lacks gets 404, records no error, and still removes the note locally |
| Interplay.CalendarBodyWithPerson | src/api/index.ts:214 | a calendar body that carries `person` 1 or 2 passes validation exactly when text and date are non-empty |
| Interplay.AddCalendarNoteWithPerson | src/api/index.ts:218-223 | with `person` sent and a working store, the service inserts the calendar row and the client appends that record with no error |
| Interplay.UpdateCalendarNoteWithPerson | src/api/index.ts:258-264 | with `person` sent, for a present id and a working store, the service revises only that row (keeping `created_at`), the client's follow-up fetch lists the table, and the client then holds the revised note with no error |

## Left out

- HTTP, `fetch`, JSON encoding and the Hono request and response objects. A response is a `Response` value and a client-side outcome is a `Reply` value.
- A JSON body that is not valid JSON is modelled as `None`, which gives 500. Body fields of other JSON types (a number as `text`, say) are not modelled: `text` and `date` are strings and `person` is an integer.
- A body that is valid JSON but not an object (`null`, say) is not modelled: `Body` is always a record. In the source, reading `body.text` on `null` throws (src/api/index.ts:66) and the handler answers 500.
- A `localStorage.setItem` that throws is not modelled: saving always succeeds. In the source, a throw from the save after a successful add (src/stores/notesStore.ts:151) lands in the `catch`, which appends a second, local-only note.
- The D1 SQL engine. Each table is a map. The order of rows with equal sort keys is unspecified, so the model promises only a descending permutation. The insertion sort and the key scan in `NoteService.List` stand in for the engine's `ORDER BY`.
- CORS middleware, the liveness route `/` and the router and bootstrap code in `src/main.ts`: framework wiring.
- `crypto.randomUUID`, `new Date()` and `Date.now()` are parameters. A fresh UUID is a precondition of `Create`. Client-side ids made from `Date.now()` are not checked for uniqueness, as in the source.
- `localStorage` as real I/O is a map from key to snapshot; a missing key is a snapshot never written. The loss of `Date` objects to strings in the `JSON.stringify`/`JSON.parse` round trip is not modelled: a snapshot is the note sequence itself.
- `new Date(text)` is taken as the identity on the ISO text. Timestamps and dates are kept as strings throughout.
- Client.FromRow: a calendar reply row with no `date`, which this service never sends, becomes a note with an empty date. In JavaScript it would be an Invalid Date.
- Client.NotesStore.Update: takes no id, text or date. These only shape the request; `Interplay` builds that request and sends it to the service.
- `isLoading` is true while a call is in flight. Each action is modelled as one atomic step, so only its final value (`false`) is stated.
- The `onMounted` auto-fetch and interleaving of concurrent actions: the source does not guard against them.
- `console.error` logging.
- The `'Unknown error'` branch: every value these actions throw is an `Error`, so `error` is always the thrown message or the action's own message.
- The service base URL chosen by the build mode.

## Findings

| source | as written | input that shows it | evidently intended | confidence | as-written member | corrected member |
|---|---|---|---|---|---|---|
| src/stores/notesStore.ts:212 | `addCalendarNote` sends `{ text, date }`, but the service requires `person` (src/api/index.ts:214) | any `addCalendarNote("meeting", d)`: the service answers 400 and the note is kept only locally | the request carries `person`, so the service inserts the row | medium, not executed | Interplay.AddCalendarNoteViaService | Interplay.AddCalendarNoteWithPerson |
| src/stores/notesStore.ts:367 | `updateCalendarNote` sends `{ text, date }`, but the service requires `person` (src/api/index.ts:254) | any `updateCalendarNote(id, "x", "2024-01-01")`: the service answers 400 and `error` is set | the request carries `person`, so the row is revised and re-fetched | medium, not executed | Interplay.UpdateCalendarNoteViaService | Interplay.UpdateCalendarNoteWithPerson |
