/**
 * The client note cache (`useNotesStore`): three note collections mirrored
 * from the service, the `error`, `isLoading` and `isEditMode` flags, and the
 * local-storage snapshots it falls back on. Every remote call is an input:
 * the reply the service gave, or the message of whatever the call threw.
 */
module Client {
  import opened Wire

  /** A note as the client holds it; the client's calendar note has no `person`. */
  datatype Note =
    | Note(id: string, text: string, createdAt: string)
    | CalendarNote(id: string, text: string, date: string, createdAt: string)

  /** A status for which `Response.ok` is false. */
  type FailStatus = s: int | !(200 <= s < 300)

  /** What a remote call came back with: a 2xx reply and its body, another status, or a thrown error. */
  datatype Reply<T> =
    | Ok(body: T)
    | NotOk(status: FailStatus)
    | Thrown(message: string)

  /** The local-storage key of each kind's snapshot. */
  function StorageKey(k: Kind): string {
    match k
    case Shopping => "shoppingNotes"
    case Map => "mapNotes"
    case Calendar => "calendarNotes"
  }

  function FetchFailure(k: Kind): string {
    "Failed to fetch " + Noun(k) + "s"
  }

  function ActionFailure(verb: string, k: Kind): string {
    "Failed to " + verb + " " + Noun(k)
  }

  /** The `error` a failed call records: the thrown message, or the action's own message for a non-2xx status. */
  function Reason<T>(reply: Reply<T>, failure: string): string {
    if reply.Thrown? then reply.message else failure
  }

  /** A service row as the client holds it; a calendar row's `person` is dropped. */
  function FromRow(k: Kind, r: Row): (n: Note)
    ensures n.id == r.id && n.text == r.text && n.createdAt == r.createdAt
    ensures n.CalendarNote? <==> k == Calendar
    ensures k == Calendar && r.CalendarRow? ==> n.date == r.date
  {
    if k != Calendar then Note(r.id, r.text, r.createdAt)
    else if r.CalendarRow? then CalendarNote(r.id, r.text, r.date, r.createdAt)
    else CalendarNote(r.id, r.text, "", r.createdAt)
  }

  /** The fetched array, mapped note by note. */
  function FromRows(k: Kind, rows: seq<Row>): (notes: seq<Note>)
    ensures |notes| == |rows|
    ensures forall i | 0 <= i < |rows| :: notes[i] == FromRow(k, rows[i])
    ensures forall i | 0 <= i < |rows| ::
      notes[i].id == rows[i].id && notes[i].text == rows[i].text && notes[i].createdAt == rows[i].createdAt
    decreases |rows|
  {
    if rows == [] then [] else [FromRow(k, rows[0])] + FromRows(k, rows[1..])
  }

  /** The note a failed add keeps locally, under a locally made id and time. */
  function LocalNote(k: Kind, localId: string, text: string, date: string, now: string): (n: Note)
    ensures n.id == localId && n.text == text && n.createdAt == now
    ensures n.CalendarNote? <==> k == Calendar
    ensures k == Calendar ==> n.date == date
  {
    if k == Calendar then CalendarNote(localId, text, date, now) else Note(localId, text, now)
  }

  /** `notes.filter(note => note.id !== id)`. */
  function RemoveId(notes: seq<Note>, id: string): (r: seq<Note>)
    ensures forall n :: n in r <==> n in notes && n.id != id
    ensures |r| <= |notes|
    decreases |notes|
  {
    if notes == [] then []
    else if notes[0].id == id then RemoveId(notes[1..], id)
    else [notes[0]] + RemoveId(notes[1..], id)
  }

  /** Filtering distributes over concatenation, so the kept notes stay in their order. */
  lemma {:induction false} RemoveIdAppend(a: seq<Note>, b: seq<Note>, id: string)
    ensures RemoveId(a + b, id) == RemoveId(a, id) + RemoveId(b, id)
    decreases |a|
  {
    if a == [] {
      assert a + b == b;
    } else {
      assert (a + b)[0] == a[0] && (a + b)[1..] == a[1..] + b;
      RemoveIdAppend(a[1..], b, id);
    }
  }

  /** A collection with no note under `id` is left exactly as it was. */
  lemma {:induction false} RemoveIdAbsent(notes: seq<Note>, id: string)
    requires forall i | 0 <= i < |notes| :: notes[i].id != id
    ensures RemoveId(notes, id) == notes
    decreases |notes|
  {
    if notes != [] {
      RemoveIdAbsent(notes[1..], id);
      assert notes == [notes[0]] + notes[1..];
    }
  }

  lemma RemoveIdIdempotent(notes: seq<Note>, id: string)
    ensures RemoveId(RemoveId(notes, id), id) == RemoveId(notes, id)
  {
  }

  /** A delete succeeds remotely on a 2xx reply, and also on a 404: the note is already gone. */
  predicate DeleteAccepted<T>(reply: Reply<T>) {
    reply.Ok? || (reply.NotOk? && reply.status == 404)
  }

  /** Everything the store holds, including the local-storage entries it writes and reads. */
  datatype View = View(
    shoppingNotes: seq<Note>,
    mapNotes: seq<Note>,
    calendarNotes: seq<Note>,
    isEditMode: bool,
    isLoading: bool,
    error: Option<string>,
    storage: map<string, seq<Note>>)
  {
    function Notes(k: Kind): seq<Note> {
      match k
      case Shopping => shoppingNotes
      case Map => mapNotes
      case Calendar => calendarNotes
    }

    function WithNotes(k: Kind, s: seq<Note>): (v: View)
      ensures v.Notes(k) == s
      ensures forall k' | k' != k :: v.Notes(k') == Notes(k')
      ensures v.isEditMode == isEditMode && v.isLoading == isLoading
      ensures v.error == error && v.storage == storage
    {
      match k
      case Shopping => this.(shoppingNotes := s)
      case Map => this.(mapNotes := s)
      case Calendar => this.(calendarNotes := s)
    }

    /** Each snapshot equals its in-memory collection. */
    predicate Mirrored() {
      forall k: Kind :: StorageKey(k) in storage && storage[StorageKey(k)] == Notes(k)
    }

    /** `saveToLocalStorage`: overwrite all three snapshots with the three collections. */
    function Saved(): View {
      this.(storage := storage[StorageKey(Shopping) := shoppingNotes]
                              [StorageKey(Map) := mapNotes]
                              [StorageKey(Calendar) := calendarNotes])
    }

    /** `loadFromLocalStorage`: each collection whose snapshot is present is replaced by it. */
    function Loaded(): View {
      this.(shoppingNotes := Restored(Shopping), mapNotes := Restored(Map), calendarNotes := Restored(Calendar))
    }

    function Restored(k: Kind): seq<Note> {
      if StorageKey(k) in storage then storage[StorageKey(k)] else Notes(k)
    }
  }

  /** The store's state after `fetch*Notes`. */
  function FetchNext(v: View, k: Kind, reply: Reply<seq<Row>>): View {
    match reply
    case Ok(rows) => v.WithNotes(k, FromRows(k, rows)).(error := None, isLoading := false)
    case _ => v.(error := Some(Reason(reply, FetchFailure(k)))).Loaded().(isLoading := false)
  }

  /**
   * The store's state after `add*Note(text[, date])`: the server's record on
   * success, otherwise a local note, appended either way, then persisted.
   */
  function AddNext(v: View, k: Kind, text: string, date: string, reply: Reply<Row>, localId: string, now: string): View {
    var note := if reply.Ok? then FromRow(k, reply.body) else LocalNote(k, localId, text, date, now);
    var error := if reply.Ok? then v.error else Some(Reason(reply, ActionFailure("add", k)));
    v.WithNotes(k, v.Notes(k) + [note]).(error := error).Saved()
  }

  /** The store's state after `delete*Note(id)`: removed locally on every path, then persisted. */
  function DeleteNext(v: View, k: Kind, id: string, reply: Reply<()>): View {
    var error := if DeleteAccepted(reply) then v.error else Some(Reason(reply, ActionFailure("delete", k)));
    v.WithNotes(k, RemoveId(v.Notes(k), id)).(error := error).Saved()
  }

  /**
   * The store's state after `update*Note`: on success the kind is fetched
   * again (`refetch` is that fetch's reply); on failure only `error` changes.
   */
  function UpdateNext(v: View, k: Kind, reply: Reply<()>, refetch: Reply<seq<Row>>): View {
    if reply.Ok? then FetchNext(v.(isLoading := true, error := None), k, refetch).(isLoading := false)
    else v.(error := Some(Reason(reply, ActionFailure("update", k))), isLoading := false)
  }

  function ToggledNext(v: View): View {
    v.(isEditMode := !v.isEditMode)
  }

  // Properties of the transitions.

  lemma SavedMirrors(v: View)
    ensures v.Saved().Mirrored()
    ensures v.Saved().Notes(Shopping) == v.shoppingNotes
    ensures v.Saved().Notes(Map) == v.mapNotes
    ensures v.Saved().Notes(Calendar) == v.calendarNotes
  {
  }

  /** Restoring right after persisting gives back exactly the persisted collections. */
  lemma LoadAfterSave(v: View)
    ensures v.Saved().Loaded() == v.Saved()
  {
  }

  /**
   * Add appends exactly one note to the target collection and touches no
   * other collection; the note is the server's record on success and a local
   * note with the requested text (and date) otherwise, when `error` is set.
   * The snapshots mirror the collections afterwards on both paths.
   */
  lemma AddAppendsOne(v: View, k: Kind, text: string, date: string, reply: Reply<Row>, localId: string, now: string)
    ensures var v' := AddNext(v, k, text, date, reply, localId, now);
      && |v'.Notes(k)| == |v.Notes(k)| + 1
      && v'.Notes(k)[..|v.Notes(k)|] == v.Notes(k)
      && (forall k' | k' != k :: v'.Notes(k') == v.Notes(k'))
      && (reply.Ok? ==> v'.Notes(k)[|v.Notes(k)|] == FromRow(k, reply.body) && v'.error == v.error)
      && (!reply.Ok? ==>
            var n := v'.Notes(k)[|v.Notes(k)|];
            && n.id == localId && n.text == text
            && (k == Calendar ==> n.CalendarNote? && n.date == date)
            && v'.error.Some?)
      && v'.Mirrored()
  {
  }

  /**
   * Delete removes every note under `id` from the target collection and keeps
   * the others in order, whatever the reply; a 2xx or 404 reply leaves `error`
   * alone and any other outcome sets it. The snapshots mirror the collections.
   */
  lemma DeleteRemovesOnEveryPath(v: View, k: Kind, id: string, reply: Reply<()>)
    ensures var v' := DeleteNext(v, k, id, reply);
      && v'.Notes(k) == RemoveId(v.Notes(k), id)
      && (forall n :: n in v'.Notes(k) <==> n in v.Notes(k) && n.id != id)
      && (forall k' | k' != k :: v'.Notes(k') == v.Notes(k'))
      && (DeleteAccepted(reply) ==> v'.error == v.error)
      && (!DeleteAccepted(reply) ==> v'.error.Some?)
      && v'.Mirrored()
  {
  }

  /**
   * A successful fetch replaces the collection by the mapped reply: same
   * length and order, same ids, texts and creation times, calendar notes
   * for the calendar kind carrying each row's date; `error` is cleared.
   */
  lemma FetchSuccessReplaces(v: View, k: Kind, rows: seq<Row>)
    ensures var v' := FetchNext(v, k, Ok(rows));
      && |v'.Notes(k)| == |rows|
      && (forall i | 0 <= i < |rows| ::
            && v'.Notes(k)[i].id == rows[i].id && v'.Notes(k)[i].text == rows[i].text
            && v'.Notes(k)[i].createdAt == rows[i].createdAt
            && (v'.Notes(k)[i].CalendarNote? <==> k == Calendar)
            && (k == Calendar && rows[i].CalendarRow? ==> v'.Notes(k)[i].date == rows[i].date))
      && (forall k' | k' != k :: v'.Notes(k') == v.Notes(k'))
      && v'.error == None && !v'.isLoading && v'.storage == v.storage
  {
  }

  /**
   * A failed fetch records the error and replaces every collection whose
   * snapshot is present, not only the one fetched; the others stay.
   */
  lemma FetchFailureRestoresAll(v: View, k: Kind, reply: Reply<seq<Row>>)
    requires !reply.Ok?
    ensures var v' := FetchNext(v, k, reply);
      && (forall k': Kind :: v'.Notes(k') == if StorageKey(k') in v.storage then v.storage[StorageKey(k')] else v.Notes(k'))
      && v'.error.Some? && !v'.isLoading && v'.storage == v.storage
  {
  }

  /** A fetch that fails right after the snapshots were written restores exactly what was written. */
  lemma FetchFailureAfterSave(v: View, k: Kind, reply: Reply<seq<Row>>)
    requires !reply.Ok?
    ensures var v' := FetchNext(v.Saved(), k, reply);
      forall k': Kind :: v'.Notes(k') == v.Notes(k')
  {
  }

  /** A failed update changes no collection and no snapshot; it only sets `error`. */
  lemma UpdateFailureKeepsNotes(v: View, k: Kind, reply: Reply<()>, refetch: Reply<seq<Row>>)
    requires !reply.Ok?
    ensures var v' := UpdateNext(v, k, reply, refetch);
      && (forall k': Kind :: v'.Notes(k') == v.Notes(k'))
      && v'.storage == v.storage && v'.isEditMode == v.isEditMode
      && v'.error.Some? && !v'.isLoading
  {
  }

  /** A successful update does not patch locally: it ends where a fresh fetch of the kind ends. */
  lemma UpdateSuccessRefetches(v: View, k: Kind, refetch: Reply<seq<Row>>)
    ensures UpdateNext(v, k, Ok(()), refetch) == FetchNext(v, k, refetch)
  {
  }

  lemma ToggleTwice(v: View)
    ensures ToggledNext(ToggledNext(v)) == v
    ensures ToggledNext(v).isEditMode != v.isEditMode
  {
  }

  class NotesStore {
    var shoppingNotes: seq<Note>
    var mapNotes: seq<Note>
    var calendarNotes: seq<Note>
    var isEditMode: bool
    var isLoading: bool
    var error: Option<string>
    /** The local-storage entries; an absent key is a snapshot that was never written. */
    var storage: map<string, seq<Note>>

    function State(): View
      reads this
    {
      View(shoppingNotes, mapNotes, calendarNotes, isEditMode, isLoading, error, storage)
    }

    /** A fresh store over whatever local storage already holds. */
    constructor (saved: map<string, seq<Note>>)
      ensures State() == View([], [], [], false, false, None, saved)
    {
      shoppingNotes, mapNotes, calendarNotes := [], [], [];
      isEditMode, isLoading, error := false, false, None;
      storage := saved;
    }

    /** Assigns the `.value` of one kind's collection. */
    method SetNotes(k: Kind, s: seq<Note>)
      modifies this
      ensures State() == old(State()).WithNotes(k, s)
    {
      match k
      case Shopping => shoppingNotes := s;
      case Map => mapNotes := s;
      case Calendar => calendarNotes := s;
    }

    method SaveToLocalStorage()
      modifies this
      ensures State() == old(State()).Saved()
      ensures State().Mirrored()
    {
      storage := storage[StorageKey(Shopping) := shoppingNotes];
      storage := storage[StorageKey(Map) := mapNotes];
      storage := storage[StorageKey(Calendar) := calendarNotes];
      SavedMirrors(old(State()));
    }

    method LoadFromLocalStorage()
      modifies this
      ensures State() == old(State()).Loaded()
    {
      if StorageKey(Shopping) in storage {
        shoppingNotes := storage[StorageKey(Shopping)];
      }
      if StorageKey(Map) in storage {
        mapNotes := storage[StorageKey(Map)];
      }
      if StorageKey(Calendar) in storage {
        calendarNotes := storage[StorageKey(Calendar)];
      }
    }

    method Fetch(k: Kind, reply: Reply<seq<Row>>)
      modifies this
      ensures State() == FetchNext(old(State()), k, reply)
    {
      isLoading := true;
      error := None;
      match reply {
        case Ok(rows) =>
          SetNotes(k, FromRows(k, rows));
        case _ =>
          error := Some(Reason(reply, FetchFailure(k)));
          LoadFromLocalStorage();
      }
      isLoading := false;
    }

    /**
     * `text` is the note's text; `date` is used by the calendar kind only.
     * `localId` and `now` stand for `Date.now().toString()` and `new Date()`.
     */
    method Add(k: Kind, text: string, date: string, reply: Reply<Row>, localId: string, now: string)
      modifies this
      ensures State() == AddNext(old(State()), k, text, date, reply, localId, now)
    {
      match reply {
        case Ok(row) =>
          SetNotes(k, State().Notes(k) + [FromRow(k, row)]);
          SaveToLocalStorage();
        case _ =>
          error := Some(Reason(reply, ActionFailure("add", k)));
          SetNotes(k, State().Notes(k) + [LocalNote(k, localId, text, date, now)]);
          SaveToLocalStorage();
      }
    }

    method Delete(k: Kind, id: string, reply: Reply<()>)
      modifies this
      ensures State() == DeleteNext(old(State()), k, id, reply)
    {
      if DeleteAccepted(reply) {
        SetNotes(k, RemoveId(State().Notes(k), id));
        SaveToLocalStorage();
      } else {
        error := Some(Reason(reply, ActionFailure("delete", k)));
        SetNotes(k, RemoveId(State().Notes(k), id));
        SaveToLocalStorage();
      }
    }

    /** `refetch` is the reply to the fetch a successful update runs. */
    method Update(k: Kind, reply: Reply<()>, refetch: Reply<seq<Row>>)
      modifies this
      ensures State() == UpdateNext(old(State()), k, reply, refetch)
    {
      isLoading := true;
      error := None;
      if reply.Ok? {
        Fetch(k, refetch);
      } else {
        error := Some(Reason(reply, ActionFailure("update", k)));
      }
      isLoading := false;
    }

    method ToggleEditMode()
      modifies this
      ensures State() == ToggledNext(old(State()))
    {
      isEditMode := !isEditMode;
    }
  }
}
