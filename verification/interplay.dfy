/**
 * The client's requests as the service receives them. The client's calendar
 * add sends `{ text, date }` and its calendar update sends `{ text, date }`,
 * while the service requires `person` as well; so against this service a
 * calendar add always ends on the client's local-only path and a calendar
 * update always ends with an error.
 */
module Interplay {
  import opened Wire
  import opened Service
  import opened Client

  /** The JSON body `add*Note` and `update*Note` send: `{ text }`, or `{ text, date }` for calendar notes. */
  function RequestBody(k: Kind, text: string, date: string): (b: Body)
    ensures b.text == Some(text) && b.person == None
    ensures b.date == if k == Calendar then Some(date) else None
  {
    Body(Some(text), if k == Calendar then Some(date) else None, None)
  }

  /** The service accepts the client's body exactly for a non-calendar kind with non-empty text. */
  lemma ClientBodyAccepted(k: Kind, text: string, date: string)
    ensures Accepts(k, RequestBody(k, text, date)) <==> k != Calendar && text != ""
  {
  }

  /** A service response as the client's `fetch` sees it, for a call whose 2xx body is a created record. */
  function CreateReply(resp: Response): (reply: Reply<Row>)
    requires IsOk(resp.status) ==> resp.payload.Created?
    ensures reply.Ok? <==> IsOk(resp.status)
    ensures reply.Ok? ==> reply.body == resp.payload.row
    ensures reply.NotOk? ==> reply.status == resp.status
  {
    if IsOk(resp.status) then Ok(resp.payload.row) else NotOk(resp.status)
  }

  /** A service response as the client's `fetch` sees it, for a call whose 2xx body is not read. */
  function StatusReply(resp: Response): (reply: Reply<()>)
    ensures reply.Ok? <==> IsOk(resp.status)
    ensures reply.NotOk? ==> reply.status == resp.status
  {
    if IsOk(resp.status) then Ok(()) else NotOk(resp.status)
  }

  /**
   * `addCalendarNote(text, date)` against the service: the service answers
   * 400 whatever its tables hold and whether or not its store works, so it
   * writes nothing, and the client keeps a local-only note and records the
   * add failure.
   */
  method AddCalendarNoteViaService(
    store: NotesStore, service: NoteService, text: string, date: string,
    storeFails: bool, freshId: Id, serverNow: string, localId: string, clientNow: string)
    returns (resp: Response)
    requires service.Valid() && freshId !in service.tables[Calendar]
    modifies store, service
    ensures service.Valid() && service.tables == old(service.tables)
    ensures resp == Response(400, Error(RequiredMessage(Calendar)))
    ensures store.calendarNotes == old(store.calendarNotes) + [CalendarNote(localId, text, date, clientNow)]
    ensures store.shoppingNotes == old(store.shoppingNotes) && store.mapNotes == old(store.mapNotes)
    ensures store.error == Some("Failed to add calendar note")
    ensures store.State().Mirrored()
  {
    resp := service.Create(Calendar, Some(RequestBody(Calendar, text, date)), storeFails, freshId, serverNow);
    store.Add(Calendar, text, date, CreateReply(resp), localId, clientNow);
    assert ActionFailure("add", Calendar) == "Failed to add calendar note";
  }

  /**
   * `updateCalendarNote(id, text, date)` against the service: the service
   * answers 400 and changes nothing, so the client re-fetches nothing, keeps
   * its collections and snapshots, and records the update failure.
   */
  method UpdateCalendarNoteViaService(
    store: NotesStore, service: NoteService, id: Id, text: string, date: string,
    storeFails: bool, refetch: Reply<seq<Row>>)
    returns (resp: Response)
    requires service.Valid()
    modifies store, service
    ensures service.Valid() && service.tables == old(service.tables)
    ensures resp == Response(400, Error(RequiredMessage(Calendar)))
    ensures store.State() == old(store.State()).(error := Some("Failed to update calendar note"), isLoading := false)
  {
    resp := service.Update(Calendar, id, Some(RequestBody(Calendar, text, date)), storeFails);
    store.Update(Calendar, StatusReply(resp), refetch);
    assert ActionFailure("update", Calendar) == "Failed to update calendar note";
  }

  /**
   * `deleteShoppingNote(id)` (or map, or calendar) against the service, for
   * an id the service does not hold: the 404 counts as success on the
   * client, so no error is recorded, and the note still leaves the client.
   */
  method DeleteMissingViaService(store: NotesStore, service: NoteService, k: Kind, id: Id)
    returns (resp: Response)
    requires service.Valid() && id !in service.tables[k]
    modifies store, service
    ensures service.tables == old(service.tables)
    ensures resp.status == 404
    ensures store.error == old(store.error)
    ensures store.State().Notes(k) == RemoveId(old(store.State()).Notes(k), id)
  {
    resp := service.Delete(k, id, false);
    store.Delete(k, id, StatusReply(resp));
  }

  /**
   * `addShoppingNote(text)` or `addMapNote(text)` against the service: with
   * non-empty text and a working store the client appends the record the
   * service inserted; otherwise the service writes nothing and the client
   * appends a local-only note and records the failure.
   */
  method AddViaService(
    store: NotesStore, service: NoteService, k: Kind, text: string,
    storeFails: bool, freshId: Id, serverNow: string, localId: string, clientNow: string)
    returns (resp: Response)
    requires k != Calendar && service.Valid() && freshId !in service.tables[k]
    modifies store, service
    ensures service.Valid()
    ensures text != "" && !storeFails ==>
      && resp.status == 201
      && service.tables == old(service.tables)[k := old(service.tables)[k][freshId := Row(freshId, text, serverNow)]]
      && store.State().Notes(k) == old(store.State().Notes(k)) + [Note(freshId, text, serverNow)]
      && store.error == old(store.error)
    ensures text == "" || storeFails ==>
      && resp.status in {400, 500}
      && service.tables == old(service.tables)
      && store.State().Notes(k) == old(store.State().Notes(k)) + [Note(localId, text, clientNow)]
      && store.error.Some?
    ensures store.State().Mirrored()
  {
    resp := service.Create(k, Some(RequestBody(k, text, "")), storeFails, freshId, serverNow);
    store.Add(k, text, "", CreateReply(resp), localId, clientNow);
    SavedMirrors(store.State());
  }

  /** A calendar body that also carries `person`, as the service requires. */
  function CalendarBodyWithPerson(text: string, date: string, person: int): (b: Body)
    requires person == 1 || person == 2
    ensures (text != "" && date != "") <==> Accepts(Calendar, b)
  {
    Body(Some(text), Some(date), Some(person))
  }

  /**
   * A calendar add whose request carries `person`: with a working store the
   * service inserts the row and the client appends that record with no error.
   */
  method AddCalendarNoteWithPerson(
    store: NotesStore, service: NoteService, text: string, date: string, person: int,
    storeFails: bool, freshId: Id, serverNow: string, localId: string, clientNow: string)
    returns (resp: Response)
    requires text != "" && date != "" && (person == 1 || person == 2)
    requires service.Valid() && freshId !in service.tables[Calendar]
    modifies store, service
    ensures service.Valid()
    ensures !storeFails ==>
      && resp.status == 201
      && service.tables == old(service.tables)[Calendar :=
           old(service.tables)[Calendar][freshId := CalendarRow(freshId, text, date, person, serverNow)]]
      && store.calendarNotes == old(store.calendarNotes) + [CalendarNote(freshId, text, date, serverNow)]
      && store.error == old(store.error)
  {
    resp := service.Create(Calendar, Some(CalendarBodyWithPerson(text, date, person)), storeFails, freshId, serverNow);
    store.Add(Calendar, text, date, CreateReply(resp), localId, clientNow);
  }

  /**
   * A calendar update whose request carries `person`, for a note the service
   * holds: with a working store the row is revised, the client's follow-up
   * fetch lists the calendar table, and the client then holds the revised
   * note with no error.
   */
  method UpdateCalendarNoteWithPerson(
    store: NotesStore, service: NoteService, id: Id, text: string, date: string, person: int,
    storeFails: bool)
    returns (resp: Response)
    requires text != "" && date != "" && (person == 1 || person == 2)
    requires service.Valid() && id in service.tables[Calendar]
    modifies store, service
    ensures service.Valid()
    ensures !storeFails ==>
      var revised := CalendarRow(id, text, date, person, old(service.tables)[Calendar][id].createdAt);
      && resp.status == 200
      && service.tables == old(service.tables)[Calendar := old(service.tables)[Calendar][id := revised]]
      && FromRow(Calendar, revised) in store.calendarNotes
      && CalendarNote(id, text, date, revised.createdAt) in store.calendarNotes
      && store.error == None && !store.isLoading
  {
    resp := service.Update(Calendar, id, Some(CalendarBodyWithPerson(text, date, person)), storeFails);
    var listed := service.List(Calendar, false);
    var rows := listed.payload.rows;
    store.Update(Calendar, StatusReply(resp), Ok(rows));
    if !storeFails {
      ListedNoteHeld(Calendar, rows, service.tables[Calendar], id);
    }
  }

  /** A row the listing enumerates reaches the client, mapped, when the listing is fetched. */
  lemma ListedNoteHeld(k: Kind, rows: seq<Row>, t: Table, id: Id)
    requires WellFormed(k, t) && Enumerates(rows, t) && id in t
    ensures FromRow(k, t[id]) in FromRows(k, rows)
  {
    EnumeratesMembers(k, rows, t);
    var j :| 0 <= j < |rows| && rows[j] == t[id];
    assert FromRows(k, rows)[j] == FromRow(k, rows[j]);
  }
}
